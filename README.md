# Raven Dashboard core, modelled in Dafny

This project models the core of the Raven Dashboard, a Next.js application.
It covers the sign-up endpoint, the route guard in front of every page, and
the UI primitives the dashboard is built from.

- **Register** (`register.dfy`): `POST /api/auth/register`. The handler reads a
  JSON body and validates `name` (at least 3 characters), `email` (the schema
  library's email format) and `password` (at least 6 characters). If any of
  them fails it answers 400 with the list of issues. If the email is already
  registered it answers 409. Otherwise it hashes the password, stores the user
  and answers 201 with only the name and email. Anything that throws ends in a
  generic 500. The user table is a `map` from email to user, held by a
  `UserStore` class whose `Post` method follows the handler's early returns.
  `Post` is proved equal to the pure function `Handle`.
- **RouteGuard** (`middleware.dfy`): the inner middleware
  lets `/`, `/sign-in` and `/sign-up` through and redirects token-less requests
  to `/sign-in`. The `authorized` callback lets `/api/auth…` paths and public
  paths through and otherwise requires a token. `withAuth` composes the two.
- **Tabs** (`tabs.dfy`): `cn`, the selected value (controlled or internal),
  trigger clicks and Enter/Space, arrow/Home/End navigation in the tab list,
  and panel visibility. The root is a `TabsRoot` class.
- **DropdownMenu** (`dropdown_menu.dfy`): the open state of a menu and of a
  sub-menu (controlled or internal), the trigger toggle, closing on Escape or
  an outside press, the content's side margins, and the plain, checkbox and
  radio item handlers. The menu and sub-menu are the classes `Menu` and
  `SubMenu`. The calls a menu makes to its user's handlers are recorded in
  order as a list of notices.
- **Avatar** (`avatar.dfy`): the image loading status machine (load, error,
  load-start, `src` change), the fallback's delay timer, and which of image and
  fallback is shown. The mounted avatar is a `MountedAvatar` class.
- **SideNav** (`sidenav.dfy`): `getUserInitials` and `getAvatarColor`.
- **JsString** (`js_string.dfy`) holds the JavaScript string built-ins these
  rely on (`trim`, `split(' ')`, `join`, `charAt(0)`, `toUpperCase`,
  `charCodeAt(0)`). **Wrappers** (`wrappers.dfy`) holds `Option` and `Result`.

Each class method is proved against a pure function of the old state. The
properties are proved about those functions as lemmas.

## Behaviour worth knowing

These are consequences of the code as written, proved about the model and
never executed:

- A body that is not JSON makes `request.json()` throw. The `catch` block turns
  that into the generic 500, not a 400.
- The `authorized` callback refuses every token-less request outside the public
  and `/api/auth` paths before the inner middleware runs. So, in the model, the
  inner redirect to `/sign-in` is reached exactly on `/api/auth` paths without
  a token (`RouteGuard.InnerRedirectOnlyUnderAuthApi`). This holds of the model
  only: the model leaves out the `config.matcher` pattern (middleware.ts:37),
  which keeps `/api/auth` paths from reaching the guard at all, so in the
  deployed application the inner redirect is never reached.
- A name made only of whitespace gives empty initials, and `getAvatarColor("")`
  has no colour (`SideNav.InitialsEmptyIff`, `SideNav.UserColorDefinedIff`).
- The document `mousedown` listener of an open menu treats a press on the
  trigger as a press outside the content. For an open, uncontrolled menu the
  press closes it and the click that follows opens it again, so in the model
  clicking the trigger does not close an open menu
  (`DropdownMenu.TriggerPressReopens`).

## Model

| member | source | states |
|---|---|---|
| Register.Validate | app/api/auth/register/route.ts:6-19 | Success exactly when all three fields are strings meeting their minimum length or email check, with the credentials as given; otherwise every failing field has an issue at its path, and a non-object body has one root type issue |
| Register.Valid | app/api/auth/register/route.ts:6-10 | A body passes the schema exactly when each of the three fields is valid |
| Register.Handle | app/api/auth/register/route.ts:12-54 | The status is one of 201, 400, 409, 500, and the user table changes only on 201 |
| Register.UserStore.Post | app/api/auth/register/route.ts:12-54 | The imperative handler returns the response and leaves the table `Handle` gives |
| Register.UserStore.constructor | app/api/auth/register/route.ts:3 | The store starts with the given table |
| Register.InvalidBodyRejected | app/api/auth/register/route.ts:15-19 | An invalid body gets 400 with at least one issue and no table change, whatever the table and the failing calls |
| Register.StringFieldMessages | app/api/auth/register/route.ts:6-10 | A rejected body of three strings carries exactly the schema's messages of the failing checks, in the order name, email, password |
| Register.ShortFieldsRejected | app/api/auth/register/route.ts:7-9 | A name under 3 or a password under 6 characters is enough for 400 |
| Register.DuplicateRejected | app/api/auth/register/route.ts:23-30 | A valid body with a registered email gets 409 with its message and no table change |
| Register.SuccessAddsOneUser | app/api/auth/register/route.ts:32-45 | A new valid email adds exactly one user (name, email, hashed password), keeps every other user, and answers 201 with name and email only |
| Register.StoresOnlyTheHash | app/api/auth/register/route.ts:32-40 | After a 201 the stored password is the hash of the given one |
| Register.RegisterTwice | app/api/auth/register/route.ts:23-45 | The same body registered twice gets 201 and then 409 |
| Register.FailuresAreGeneric500 | app/api/auth/register/route.ts:47-53 | A non-JSON body, or a throwing lookup, hash or create, gives the generic 500 and no table change |
| Register.CreatedIff | app/api/auth/register/route.ts:12-45 | 201 exactly for a parsed, valid body with a new email and no failing call |
| RouteGuard.Middleware | middleware.ts:7-15 | Redirects exactly the non-public, token-less requests, always to `/sign-in` |
| RouteGuard.Authorized | middleware.ts:18-30 | A token, a public path or a `/api/auth/register` path is enough; a refused request has no token and is not public |
| RouteGuard.Guard | middleware.ts:6-33 | The request is refused exactly when `authorized` is false, and otherwise gets the inner middleware's decision |
| RouteGuard.PublicPassesThrough | middleware.ts:11 | Public paths pass the middleware, the callback and the guard whatever the token |
| RouteGuard.NoTokenRedirects | middleware.ts:12 | A non-public path without a token is redirected to `/sign-in` |
| RouteGuard.TokenNeverRedirects | middleware.ts:9-14 | With a token neither the middleware nor the guard stops a request |
| RouteGuard.RegisterPrefixImplied | middleware.ts:22-23 | A `/api/auth/register` path also starts with `/api/auth` |
| RouteGuard.AuthorizedIff | middleware.ts:18-30 | `authorized` holds iff the path starts with `/api/auth`, is public, or a token is present |
| RouteGuard.AuthorizedIsTokenElsewhere | middleware.ts:21-29 | Outside public and `/api/auth` paths, `authorized` is token presence |
| RouteGuard.AuthorizedMonotone | middleware.ts:18-30 | Adding a token never turns an allowed request into a refused one |
| RouteGuard.TrailingSlashNotPublic | middleware.ts:4 | Public membership is exact: `/sign-in/` is not public and is redirected without a token |
| RouteGuard.InnerRedirectOnlyUnderAuthApi | middleware.ts:6-33 | Through the guard, the inner redirect to `/sign-in` happens exactly on `/api/auth` paths without a token |
| RouteGuard.NoPublicAuthApiPath | middleware.ts:4 | No public path starts with `/api/auth` |
| Tabs.Kept | components/ui/tabs.tsx:5 | `filter(Boolean)` keeps no more entries than given, all non-empty |
| Tabs.KeptSingle | components/ui/tabs.tsx:5 | One entry is kept, as its own string, exactly when it is truthy; with `KeptAppend` this fixes the whole result |
| Tabs.KeptAppend | components/ui/tabs.tsx:5 | Filtering distributes over concatenation |
| Tabs.KeptEmptyIff | components/ui/tabs.tsx:5 | Nothing is kept iff every argument is falsy |
| Tabs.JoinNonEmpty | components/ui/tabs.tsx:5 | A join of non-empty strings is empty iff there are none |
| Tabs.JoinAppend | components/ui/tabs.tsx:5 | Joining two non-empty lists puts one space between their joins |
| Tabs.Cn | components/ui/tabs.tsx:4-6 | `cn` is the space-join of the kept strings; its meaning is stated by `CnSingle`, `CnAppend`, `CnEmptyIff` and `CnSplit` |
| Tabs.CnSingle | components/ui/tabs.tsx:4-6 | `cn` of one entry is its string when truthy, else the empty string |
| Tabs.CnEmptyIff | components/ui/tabs.tsx:4-6 | `cn` gives the empty string iff every argument is falsy |
| Tabs.CnAppend | components/ui/tabs.tsx:4-6 | `cn(a ++ b)` is `cn(a)` and `cn(b)` joined by one space, or just one of them when the other is empty |
| Tabs.CnSplit | components/ui/tabs.tsx:4-6 | With at least one truthy argument and no space inside any string, splitting `cn`'s result on spaces gives back exactly the truthy strings, in order |
| Tabs.UseTabsContext | components/ui/tabs.tsx:16-22 | Fails with the hook's message exactly outside a `Tabs` root, else gives the context |
| Tabs.InitialValue | components/ui/tabs.tsx:42 | The internal value starts at `defaultValue`, or `""` without one |
| Tabs.TabsModel.Value | components/ui/tabs.tsx:44 | The shown value is the `value` prop when given, else the internal value |
| Tabs.ValueChange | components/ui/tabs.tsx:44-51 | Uncontrolled, the internal and shown value become the new one; controlled, the internal value is kept; `onValueChange` always hears of it |
| Tabs.UncontrolledFollowsChanges | components/ui/tabs.tsx:44-51 | An uncontrolled root shows the last requested value after any run of changes |
| Tabs.ControlledIgnoresChanges | components/ui/tabs.tsx:44-51 | A controlled root keeps showing its prop after any run of changes, while every change is still reported |
| Tabs.TriggerClick | components/ui/tabs.tsx:171-175 | A disabled trigger changes nothing; an enabled one is exactly a `ValueChange` to its value, which an uncontrolled root then shows; a controlled root keeps its value and internal value |
| Tabs.IsActive | components/ui/tabs.tsx:169 | A trigger or panel is active exactly when its value is the shown value |
| Tabs.TriggerKeyDown | components/ui/tabs.tsx:177-182 | Enter and Space act as a click and prevent the default, other keys do nothing |
| Tabs.Content | components/ui/tabs.tsx:222-234 | A panel renders iff forced or active, and is hidden iff inactive |
| Tabs.AtMostOneContent | components/ui/tabs.tsx:223-227 | Without `forceMount`, two panels with different values never both render |
| Tabs.NextIndex | components/ui/tabs.tsx:93-128 | The next index is the current one or a valid trigger index |
| Tabs.HandledKeysMove | components/ui/tabs.tsx:95-128 | The keys the list takes over (arrows of its orientation, Home, End) move to a valid trigger index; every other key leaves the index unchanged |
| Tabs.ForwardIsSuccessor | components/ui/tabs.tsx:96-101 | The forward arrow of the orientation moves to the next trigger, wrapping to the first |
| Tabs.BackwardIsPredecessor | components/ui/tabs.tsx:102-107 | The backward arrow moves to the previous trigger, wrapping to the last, and from no focus to the last |
| Tabs.ArrowsWrap | components/ui/tabs.tsx:108-119 | Forward from the last trigger reaches the first, backward from the first reaches the last |
| Tabs.ForwardThenBack | components/ui/tabs.tsx:96-119 | Forward then backward returns to a focused trigger |
| Tabs.OtherKeysStay | components/ui/tabs.tsx:95-128 | Keys outside the switch, and arrows of the other orientation, leave the index unchanged |
| Tabs.HomeAndEnd | components/ui/tabs.tsx:120-127 | Home goes to the first trigger, End to the last, in both orientations |
| Tabs.TabsRoot.constructor | components/ui/tabs.tsx:33-44 | The root starts with the value prop, the default as internal value, and horizontal orientation by default |
| Tabs.TabsRoot.SetValueProp | components/ui/tabs.tsx:35 | A re-render with another `value` prop changes only the controlled value |
| Tabs.TabsRoot.HandleValueChange | components/ui/tabs.tsx:46-51 | The root's state becomes `ValueChange` of the old state |
| Tabs.TabsRoot.TriggerActivate | components/ui/tabs.tsx:171-175 | The root's state becomes `TriggerClick` of the old state |
| Tabs.TabsRoot.TriggerHandleKeyDown | components/ui/tabs.tsx:177-182 | State and prevented default are those of `TriggerKeyDown` |
| Tabs.TabsRoot.ListKeyDown | components/ui/tabs.tsx:85-134 | The list moves exactly when `NextIndex` differs from the focused index, and then clicks the trigger there; it calls `preventDefault` exactly for the keys it takes over when it has triggers |
| DropdownMenu.OpenState.IsOpen | components/ui/dropdown-menu.tsx:42 | The menu is open per the `open` prop when given, else per the internal state |
| DropdownMenu.OpenState.Set | components/ui/dropdown-menu.tsx:44-49 | Only an uncontrolled state follows the request; a controlled one keeps its prop and its internal state |
| DropdownMenu.OpenFollowsLastRequest | components/ui/dropdown-menu.tsx:41-49 | After any run of requests, an uncontrolled state is open iff the last request opened it |
| DropdownMenu.UseDropdown | components/ui/dropdown-menu.tsx:17-23 | Fails with the hook's message exactly outside a `DropdownMenu`, else gives the context |
| DropdownMenu.InitialMenu | components/ui/dropdown-menu.tsx:34-42 | The open state holds the `open` prop and an internal state of `defaultOpen` (default false), so the menu is open as `open` says, else as `defaultOpen`; `closeOnSelect` defaults to true; nothing is notified |
| DropdownMenu.RequestOpen | components/ui/dropdown-menu.tsx:44-49 | `setIsOpen` updates only uncontrolled state and always reports the request to `onOpenChange` |
| DropdownMenu.TriggerClick | components/ui/dropdown-menu.tsx:71-75 | The trigger asks for the opposite state (the open state becomes `Set(!IsOpen())`, `closeOnSelect` kept), then calls `onClick`; an uncontrolled menu toggles, a controlled one keeps its state |
| DropdownMenu.TriggerTwiceRestores | components/ui/dropdown-menu.tsx:71-75 | Two trigger clicks leave the open state as it was |
| DropdownMenu.DocumentKeyDown | components/ui/dropdown-menu.tsx:130-152 | While open, Escape asks to close; otherwise nothing changes |
| DropdownMenu.DocumentMouseDown | components/ui/dropdown-menu.tsx:130-137 | A press changes anything iff the menu is open and the press is outside the mounted content, and then it asks to close |
| DropdownMenu.TriggerPressReopens | components/ui/dropdown-menu.tsx:71-75 | On an open uncontrolled menu, the mousedown on the trigger closes it and the trigger's click reopens it |
| DropdownMenu.ContentRendered | components/ui/dropdown-menu.tsx:98-108 | The content's children render only while the menu is open and the portal has mounted |
| DropdownMenu.EscapeCloses | components/ui/dropdown-menu.tsx:139-143 | Escape closes an open uncontrolled menu; a closed menu ignores keys |
| DropdownMenu.Margins | components/ui/dropdown-menu.tsx:171-172 | Only the margin on the axis of the side is set, to plus or minus `sideOffset` |
| DropdownMenu.MarginsPointAway | components/ui/dropdown-menu.tsx:171-172 | For every `sideOffset`, Bottom sets `marginTop` to `sideOffset` and Top to its negation; Right sets `marginLeft` to `sideOffset` and Left to its negation |
| DropdownMenu.ItemClick | components/ui/dropdown-menu.tsx:205-213 | A disabled item does nothing; an enabled one calls `onClick`, then asks to close iff `closeOnSelect`; the open state becomes `Set(false)` exactly then and is otherwise kept |
| DropdownMenu.ItemKeyDown | components/ui/dropdown-menu.tsx:229-234 | Enter and Space act as a click and prevent the default, other keys do nothing |
| DropdownMenu.CheckboxItemClick | components/ui/dropdown-menu.tsx:260-269 | An enabled checkbox reports the flipped value, then the click, never touches open state, and prevents the default iff `closeOnSelect` is false |
| DropdownMenu.IsSelected | components/ui/dropdown-menu.tsx:336 | A radio item is selected exactly when it is inside a group whose value is its own |
| DropdownMenu.RadioSelectionExclusive | components/ui/dropdown-menu.tsx:336 | Two different values are never both selected in one radio group |
| DropdownMenu.RadioItemClick | components/ui/dropdown-menu.tsx:338-347 | An enabled radio item reports its value to the group if there is one, then the click, then asks to close iff `closeOnSelect`; the open state becomes `Set(false)` exactly then and is otherwise kept |
| DropdownMenu.SelectClosesIff | components/ui/dropdown-menu.tsx:205-213 | Plain and radio items ask to close exactly when `closeOnSelect` holds; checkbox items never change the open state |
| DropdownMenu.DisabledItemsInert | components/ui/dropdown-menu.tsx:206 | Disabled items of every kind change nothing |
| DropdownMenu.InitialSub | components/ui/dropdown-menu.tsx:433-435 | The sub-menu's open state holds the `open` prop and a closed internal state, so an uncontrolled sub-menu starts closed; nothing is notified |
| DropdownMenu.SubSetIsOpen | components/ui/dropdown-menu.tsx:437-442 | The sub-menu's `setIsOpen` updates only uncontrolled state and reports every request |
| DropdownMenu.SubTriggerHover | components/ui/dropdown-menu.tsx:464-477 | Enter asks to open and leave to close; outside a sub-menu nothing happens |
| DropdownMenu.SubContentRendered | components/ui/dropdown-menu.tsx:494-496 | Sub-menu content renders only inside an open sub-menu |
| DropdownMenu.HoversAreRequests | components/ui/dropdown-menu.tsx:476-477 | A run of pointer moves is exactly that run of `setIsOpen` requests |
| DropdownMenu.SubFollowsPointer | components/ui/dropdown-menu.tsx:433-496 | An uncontrolled sub-menu's content is shown iff the last pointer move was an enter |
| DropdownMenu.Menu.constructor | components/ui/dropdown-menu.tsx:34-42 | The menu starts in `InitialMenu`'s state |
| DropdownMenu.Menu.SetOpenProp | components/ui/dropdown-menu.tsx:42 | A re-render with another `open` prop changes only the controlled state |
| DropdownMenu.Menu.SetIsOpen | components/ui/dropdown-menu.tsx:44-49 | The menu's state becomes `RequestOpen` of the old state |
| DropdownMenu.Menu.TriggerHandleClick | components/ui/dropdown-menu.tsx:71-75 | The menu's state becomes `TriggerClick` of the old state, and `preventDefault` is always called |
| DropdownMenu.Menu.HandleEscape | components/ui/dropdown-menu.tsx:139-143 | The menu's state becomes `DocumentKeyDown` of the old state |
| DropdownMenu.Menu.HandleClickOutside | components/ui/dropdown-menu.tsx:133-137 | The menu's state becomes `DocumentMouseDown` of the old state |
| DropdownMenu.Menu.ItemHandleClick | components/ui/dropdown-menu.tsx:205-213 | The menu's state becomes `ItemClick` of the old state |
| DropdownMenu.Menu.ItemHandleKeyDown | components/ui/dropdown-menu.tsx:229-234 | State and prevented default are those of `ItemKeyDown` |
| DropdownMenu.Menu.CheckboxItemHandleClick | components/ui/dropdown-menu.tsx:260-269 | State and prevented default are those of `CheckboxItemClick` |
| DropdownMenu.Menu.RadioItemHandleClick | components/ui/dropdown-menu.tsx:338-347 | The menu's state becomes `RadioItemClick` of the old state |
| DropdownMenu.SubMenu.constructor | components/ui/dropdown-menu.tsx:433-435 | The sub-menu starts in `InitialSub`'s state |
| DropdownMenu.SubMenu.SetIsOpen | components/ui/dropdown-menu.tsx:437-442 | The sub-menu's state becomes `SubSetIsOpen` of the old state |
| DropdownMenu.SubMenu.Hover | components/ui/dropdown-menu.tsx:476-477 | The sub-menu's state becomes that of `SubTriggerHover` |
| Avatar.Initial | components/ui/avatar.tsx:21 | The avatar starts loading with nothing reported, keeping `src` and `delayMs` (default 0); the fallback may render at once iff that delay is 0 |
| Avatar.Step | components/ui/avatar.tsx:64-121 | Load, error and load-start set and report their status; a change of `src` records it, resets to loading without reporting when the new one is non-empty, and keeps the status otherwise; an unchanged `src` changes nothing; only the timer changes `canRender`, only for a positive delay, and it touches nothing else |
| Avatar.ImageVisible | components/ui/avatar.tsx:95 | The image is shown exactly when the status is loaded |
| Avatar.FallbackShown | components/ui/avatar.tsx:123-127 | The fallback is shown exactly when it may render and the status is loading or error |
| Avatar.ImageXorFallback | components/ui/avatar.tsx:95 | Image and fallback are never shown together; once the fallback may render, exactly one is |
| Avatar.ReportsMatchStatus | components/ui/avatar.tsx:64-81 | Each handler reports exactly the status it sets |
| Avatar.CanRenderStays | components/ui/avatar.tsx:114-121 | Once the fallback may render, it stays so |
| Avatar.CanRenderFrom | components/ui/avatar.tsx:114-121 | After any run of events the fallback may render iff it already could, or the delay is positive and the timer fired |
| Avatar.CanRenderIff | components/ui/avatar.tsx:114-121 | From mount, the fallback may render iff the delay is 0, or positive with the timer fired |
| Avatar.SrcChangeShowsFallback | components/ui/avatar.tsx:83-88 | A change to a new non-empty `src` hides the image and shows the fallback when it may render |
| Avatar.FalsySrcKeepsStatus | components/ui/avatar.tsx:84 | A change to an empty or missing `src` keeps the status |
| Avatar.UseAvatarContext | components/ui/avatar.tsx:45-51 | Fails with the hook's message exactly outside an `Avatar`, else gives the context |
| Avatar.MountedAvatar.constructor | components/ui/avatar.tsx:21 | The avatar starts in `Initial`'s state |
| Avatar.MountedAvatar.HandleLoad | components/ui/avatar.tsx:64-69 | The state becomes `Step` of the old state on a load |
| Avatar.MountedAvatar.HandleError | components/ui/avatar.tsx:71-75 | The state becomes `Step` of the old state on an error |
| Avatar.MountedAvatar.HandleLoadStart | components/ui/avatar.tsx:77-81 | The state becomes `Step` of the old state on a load-start |
| Avatar.MountedAvatar.SetSrc | components/ui/avatar.tsx:83-88 | The state becomes `Step` of the old state on a `src` change |
| Avatar.MountedAvatar.TimerFires | components/ui/avatar.tsx:116-121 | The state becomes `Step` of the old state when the timer fires |
| SideNav.GetUserInitials | components/ui/sidenav.tsx:15-29 | The initials have at most two characters and no lower-case ASCII letter |
| SideNav.InitialsOfParts | components/ui/sidenav.tsx:18-21 | From the parts of a split name: the upper-cased first letters of the first and last part when there are several, else of the only part |
| SideNav.InitialsFromTrimmed | components/ui/sidenav.tsx:16-17 | A name that does not trim to nothing takes the name branch, on the parts of its trimmed form |
| SideNav.InitialsOfSeveralWords | components/ui/sidenav.tsx:16-19 | A name that trims to several space-separated parts, whose first and last parts are non-empty, gives the upper-cased first letters of those two parts; inner runs of spaces (empty middle parts) are allowed |
| SideNav.InitialsOfOneWord | components/ui/sidenav.tsx:16-21 | A name that trims to one word gives its upper-cased first letter |
| SideNav.InitialsWithoutName | components/ui/sidenav.tsx:24-28 | Without a name, the upper-cased first letter of the email, else `U` |
| SideNav.InitialsEmptyIff | components/ui/sidenav.tsx:15-29 | The initials are empty iff the name is present but only whitespace |
| SideNav.JoinEndsWithLast | components/ui/sidenav.tsx:19 | The last word of a space-joined name is its suffix |
| SideNav.GetAvatarColor | components/ui/sidenav.tsx:31-45 | A colour exists iff the initials are non-empty, and it is one of the eight gradients |
| SideNav.AvatarColorByCode | components/ui/sidenav.tsx:43-44 | For any non-empty initials the colour is the gradient at the first UTF-16 code unit modulo 8: the character's code in the Basic Multilingual Plane, its high surrogate above it |
| SideNav.AvatarColorFirstCharOnly | components/ui/sidenav.tsx:43 | Initials with the same first character get the same colour |
| SideNav.DefaultUserColor | components/ui/sidenav.tsx:28 | The default `U` gets the pink gradient |
| SideNav.UserColorDefinedIff | components/ui/sidenav.tsx:125 | The colour computed from a user's name and email is defined iff the name is not present-but-blank |
| JsString.TrimStart | components/ui/sidenav.tsx:17 | The result is a suffix, what was removed is whitespace, and it does not start with whitespace |
| JsString.TrimEnd | components/ui/sidenav.tsx:17 | The result is a prefix, what was removed is whitespace, and it does not end with whitespace |
| JsString.Trim | components/ui/sidenav.tsx:17 | `trim` removes leading and then trailing whitespace; its meaning is stated by `TrimStart`, `TrimEnd`, `TrimWhitespaceOnly` and `TrimUnpadded` |
| JsString.TrimWhitespaceOnly | components/ui/sidenav.tsx:17 | A string made only of whitespace trims to the empty string |
| JsString.TrimUnpadded | components/ui/sidenav.tsx:17 | A string with no whitespace at either end is left alone |
| JsString.Split | components/ui/sidenav.tsx:17 | `split(' ')` gives at least one part and no part holds a space |
| JsString.Join | components/ui/tabs.tsx:5 | `join(sep)` puts the separator between consecutive pieces; its meaning is stated by `JoinSplit`, `SplitJoin` and `JoinAppend` |
| JsString.JoinSplit | components/ui/sidenav.tsx:17 | Joining the parts of `split(' ')` with a space gives back the string |
| JsString.SplitJoin | components/ui/sidenav.tsx:17 | Splitting a space-join of space-free parts gives back the parts |
| JsString.FirstChar | components/ui/sidenav.tsx:19-25 | `charAt(0)` is the first character, or empty exactly for the empty string |
| JsString.UpperChar | components/ui/sidenav.tsx:19-25 | ASCII lower-case letters go to upper case, everything else is kept |
| JsString.Upper | components/ui/sidenav.tsx:19-25 | Upper-casing keeps the length and maps each character |
| JsString.FirstCodeUnit | components/ui/sidenav.tsx:43 | `charCodeAt(0)` is NaN exactly for the empty string, else a UTF-16 code unit: the character itself in the Basic Multilingual Plane, outside it the high surrogate whose 1024-code-point block holds the character |

## Left out

- The session-token lifecycle (issuing, rotating and revoking tokens) is in the NextAuth route's options and callbacks, outside the modelled core. The guard takes only whether a token is present.
- Register.Validate: the email format is a predicate parameter, not the schema library's regular expression.
- Register.Validate: lengths are counted in Unicode scalar values, not UTF-16 code units. Issues carry a kind and a path; the library's issue objects (codes, path arrays) are not reproduced. `IssueMessage` gives the schema's custom texts exactly, and abbreviates the library's default texts for a missing or non-string property to "Required" and "Expected string".
- Register.Validate: issues are reported for name, email and password in schema order. Extra properties and non-object nesting beyond "not an object" are not modelled.
- Register.Handle: bcrypt's salt and cost factor are left out. The hash is a deterministic function parameter, and whether a database or hashing call throws is a `Faults` parameter.
- Register.UserStore.Post: concurrent requests are not modelled. Two racing requests with one email, and the database's unique constraint, are not captured. The `console.error` log is left out.
- RouteGuard.Guard: the sign-in page that `withAuth` itself redirects a refused request to is not modelled; a refusal is `Unauthorized`.
- RouteGuard: the `config.matcher` regular expression, which decides which paths reach the guard at all, is not modelled. Neither are `NextResponse` and URL building.
- Tabs.TabsRoot.ListKeyDown: the triggers found by `querySelectorAll`, and the focused one, are parameters. Moving DOM focus is not modelled; the click on the new trigger is.
- Tabs and DropdownMenu: whether the user supplied `onValueChange`, `onOpenChange` or `onClick` is not modelled. Every call is recorded, and a missing handler ignores it.
- DropdownMenu: the portal's mount effect, the listener installation and removal, and React's render scheduling are not modelled. Document listeners act only while the menu is open, which is the effect's guard.
- DropdownMenu: `asChild` cloning, and the markup-only parts (`Group`, `Label`, `Separator`, `Shortcut`, `RadioGroup`'s wrapper) are not modelled.
- Avatar.Step: the clearing of a pending timer on unmount or on a change of `delayMs` is not modelled; `delayMs` is fixed for a mounted fallback.
- Avatar: `onLoad` and `onError` passed through to the image are not recorded; only `onLoadingStatusChange` is.
- JsString.UpperChar: `toUpperCase` is modelled for ASCII letters only; other characters are kept.
- JsString.FirstChar: strings are sequences of Unicode scalar values, so `charAt(0)` on a character outside the Basic Multilingual Plane gives the whole character, where JavaScript gives a lone surrogate.
- The rest of the dashboard (pages, the floating navigation, other UI components, local storage, `signOut` and loading spinners) is not part of this model.
