/**
 * The two helpers of the side navigation that turn the signed-in user's
 * name and email into avatar initials and an avatar colour.
 */
module SideNav {
  import opened Wrappers
  import opened JsString

  /**
   * `getUserInitials(name, email)`: the first letters of the first and last
   * space-separated parts of the trimmed name, else the first letter of the
   * email, else "U"; always upper-cased.
   */
  function GetUserInitials(name: Option<string>, email: Option<string>): (r: string)
    ensures |r| <= 2
    ensures forall i :: 0 <= i < |r| ==> !('a' <= r[i] <= 'z')
  {
    if Truthy(name) then InitialsOfParts(Split(Trim(name.value)))
    else if Truthy(email) then Upper(FirstChar(email.value))
    else "U"
  }

  /** The initials from the parts of a split name: the first and last part's first letters, or the only part's. */
  function InitialsOfParts(names: seq<string>): (r: string)
    requires |names| >= 1
    ensures |r| <= 2
    ensures forall i :: 0 <= i < |r| ==> !('a' <= r[i] <= 'z')
    ensures |names| >= 2 && names[0] != "" && names[|names| - 1] != "" ==>
      r == [UpperChar(names[0][0]), UpperChar(names[|names| - 1][0])]
    ensures |names| == 1 && names[0] != "" ==> r == [UpperChar(names[0][0])]
  {
    if |names| >= 2 then Upper(FirstChar(names[0]) + FirstChar(names[|names| - 1]))
    else Upper(FirstChar(names[0]))
  }

  /** The trailing part of a join is its last piece. */
  lemma {:induction false} JoinEndsWithLast(words: seq<string>)
    requires |words| >= 1
    ensures |Join(words, " ")| >= |words[|words| - 1]|
    ensures Join(words, " ")[|Join(words, " ")| - |words[|words| - 1]|..] == words[|words| - 1]
  {
    if |words| >= 2 {
      JoinEndsWithLast(words[1..]);
      var tail := Join(words[1..], " ");
      assert Join(words, " ") == (words[0] + " ") + tail;
      assert words[1..][|words[1..]| - 1] == words[|words| - 1];
    }
  }

  /**
   * A name that trims to two or more words separated by single spaces gives
   * the upper-cased first letters of the first and the last word, whatever
   * the email.
   */
  lemma InitialsOfSeveralWords(name: string, words: seq<string>, email: Option<string>)
    requires |words| >= 2
    requires words[0] != "" && words[|words| - 1] != ""
    requires forall i :: 0 <= i < |words| ==> ' ' !in words[i]
    requires Trim(name) == Join(words, " ")
    ensures GetUserInitials(Some(name), email)
         == [UpperChar(words[0][0]), UpperChar(words[|words| - 1][0])]
  {
    assert GetUserInitials(Some(name), email) == InitialsOfParts(words) by {
      JoinOfFirstNonEmpty(words);
      InitialsFromTrimmed(name, email);
      SplitJoin(words);
    }
  }

  /** A join whose first piece is non-empty is non-empty. */
  lemma JoinOfFirstNonEmpty(words: seq<string>)
    requires |words| >= 1 && words[0] != ""
    ensures Join(words, " ") != ""
  {
    if |words| >= 2 {
      assert Join(words, " ") == words[0] + " " + Join(words[1..], " ");
    }
  }

  /** A name that trims to one word gives its upper-cased first letter, whatever the email. */
  lemma InitialsOfOneWord(name: string, word: string, email: Option<string>)
    requires word != "" && ' ' !in word
    requires Trim(name) == word
    ensures GetUserInitials(Some(name), email) == [UpperChar(word[0])]
  {
    assert GetUserInitials(Some(name), email) == InitialsOfParts([word]) by {
      InitialsFromTrimmed(name, email);
      SplitJoin([word]);
    }
  }

  /** A name that does not trim to nothing gives the initials of the parts of its trimmed form. */
  lemma InitialsFromTrimmed(name: string, email: Option<string>)
    requires Trim(name) != ""
    ensures GetUserInitials(Some(name), email) == InitialsOfParts(Split(Trim(name)))
  {
    assert name != "";
  }

  /** Without a usable name the initial comes from the email, and "U" stands in when both are missing. */
  lemma InitialsWithoutName(name: Option<string>, email: Option<string>)
    requires !Truthy(name)
    ensures Truthy(email) ==> GetUserInitials(name, email) == [UpperChar(email.value[0])]
    ensures !Truthy(email) ==> GetUserInitials(name, email) == "U"
  {
  }

  /**
   * The initials are empty exactly when the name is present but made only of
   * whitespace: such a name does not fall back to the email.
   */
  lemma InitialsEmptyIff(name: Option<string>, email: Option<string>)
    ensures GetUserInitials(name, email) == "" <==> Truthy(name) && Trim(name.value) == ""
  {
    if Truthy(name) {
      var t := Trim(name.value);
      var names := Split(t);
      if t != "" {
        assert t[0] != ' ';
        assert names[0] == [t[0]] + Split(t[1..])[0];
        assert FirstChar(names[0]) != "";
        if |names| >= 2 {
          assert |FirstChar(names[0]) + FirstChar(names[|names| - 1])| >= 1;
        }
      }
    }
  }

  /** The eight gradient classes of `getAvatarColor`. */
  const Colors: seq<string> := [
    "from-red-500 to-red-600",
    "from-blue-500 to-blue-600",
    "from-green-500 to-green-600",
    "from-purple-500 to-purple-600",
    "from-indigo-500 to-indigo-600",
    "from-pink-500 to-pink-600",
    "from-yellow-500 to-yellow-600",
    "from-teal-500 to-teal-600"
  ]

  /**
   * `getAvatarColor(initials)`: the colour indexed by the first UTF-16 code
   * unit modulo 8; `undefined` (here `None`) for empty initials, where
   * `charCodeAt(0)` is NaN.
   */
  function GetAvatarColor(initials: string): (r: Option<string>)
    ensures r.Some? <==> initials != ""
    ensures r.Some? ==> r.value in Colors
  {
    match FirstCodeUnit(initials)
    case None => None
    case Some(code) => Some(Colors[code % |Colors|])
  }

  /**
   * The colour is `Colors[c % 8]` for the first UTF-16 code unit `c`: the
   * character's own code in the Basic Multilingual Plane, its high surrogate
   * above it.
   */
  lemma AvatarColorByCode(initials: string)
    requires initials != ""
    ensures GetAvatarColor(initials) == Some(Colors[FirstCodeUnit(initials).value % 8])
    ensures (initials[0] as int) < 0x1_0000 ==> GetAvatarColor(initials) == Some(Colors[(initials[0] as int) % 8])
    ensures (initials[0] as int) >= 0x1_0000 ==>
      GetAvatarColor(initials) == Some(Colors[(0xD800 + (initials[0] as int - 0x1_0000) / 0x400) % 8])
  {
  }

  /** The colour depends only on the first character of the initials. */
  lemma AvatarColorFirstCharOnly(a: string, b: string)
    requires a != "" && b != "" && a[0] == b[0]
    ensures GetAvatarColor(a) == GetAvatarColor(b)
  {
  }

  /** The default initials "U" (code 85) get the sixth colour. */
  lemma DefaultUserColor()
    ensures GetAvatarColor("U") == Some("from-pink-500 to-pink-600")
  {
  }

  /**
   * The colour the side navigation computes from a user's name and email is
   * defined unless the name is present but blank.
   */
  lemma UserColorDefinedIff(name: Option<string>, email: Option<string>)
    ensures GetAvatarColor(GetUserInitials(name, email)).Some?
        <==> !(Truthy(name) && Trim(name.value) == "")
  {
    InitialsEmptyIff(name, email);
  }
}
