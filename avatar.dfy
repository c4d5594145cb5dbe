/**
 * The avatar primitive: an `Avatar` root keeps the image loading status,
 * `AvatarImage` moves it on load, error, load-start and `src` changes and
 * is shown only once loaded, and `AvatarFallback` is shown while the image
 * is loading or broken, possibly after a delay.
 */
module Avatar {
  import opened Wrappers
  import opened JsString

  /** `'loading' | 'loaded' | 'error'` */
  datatype LoadingStatus = Loading | Loaded | Error

  /** The state an `Avatar` with one `AvatarImage` and one `AvatarFallback` holds. */
  datatype AvatarModel = AvatarModel(
    status: LoadingStatus,         // the root's `imageLoadingStatus`
    isLoaded: bool,                // the image's `isLoaded`
    reported: seq<LoadingStatus>,  // values passed to `onLoadingStatusChange`, oldest first
    src: Option<string>,           // the image's `src` prop
    delayMs: int,                  // the fallback's `delayMs`
    canRender: bool)               // the fallback's `canRender`

  /** What can happen to a mounted avatar. */
  datatype Event =
    | Load                       // the image's `load` event
    | Fail                       // the image's `error` event
    | LoadStart                  // the image's `loadstart` event
    | SrcChange(newSrc: Option<string>)  // the parent renders the image with another `src`
    | TimerElapsed               // the fallback's `setTimeout` fires

  /** The avatar on first render, with `delayMs` defaulting to 0. */
  function Initial(src: Option<string>, delayMs: Option<int>): (a: AvatarModel)
    ensures a.status == Loading && !a.isLoaded && a.reported == []
    ensures a.canRender <==> delayMs.GetOr(0) == 0
    ensures a.src == src && a.delayMs == delayMs.GetOr(0)
  {
    AvatarModel(Loading, false, [], src, delayMs.GetOr(0), delayMs.GetOr(0) == 0)
  }

  /** `handleLoad`, `handleError`, `handleLoadStart`, the `src` effect and the fallback timer. */
  function Step(a: AvatarModel, e: Event): (a': AvatarModel)
    ensures a'.delayMs == a.delayMs
    ensures e.Load? ==> a'.status == Loaded && a'.isLoaded && a'.reported == a.reported + [Loaded]
    ensures e.Fail? ==> a'.status == Error && a'.reported == a.reported + [Error]
    ensures e.LoadStart? ==> a'.status == Loading && !a'.isLoaded && a'.reported == a.reported + [Loading]
    ensures e.SrcChange? && e.newSrc != a.src && Truthy(e.newSrc) ==> a'.status == Loading && !a'.isLoaded
    ensures e.SrcChange? ==> a'.reported == a.reported && a'.canRender == a.canRender
    ensures !e.SrcChange? ==> a'.src == a.src
    ensures !e.TimerElapsed? ==> a'.canRender == a.canRender
    ensures e.TimerElapsed? ==> a'.canRender == (a.canRender || a.delayMs > 0) && a'.status == a.status
    ensures e.TimerElapsed? ==> a'.reported == a.reported && a'.isLoaded == a.isLoaded && a'.src == a.src
    ensures e.SrcChange? ==> a'.src == e.newSrc
    ensures e.SrcChange? && e.newSrc == a.src ==> a' == a
    ensures e.SrcChange? && !Truthy(e.newSrc) ==> a'.status == a.status && a'.isLoaded == a.isLoaded
    ensures e.Fail? ==> a'.isLoaded == a.isLoaded
  {
    match e
    case Load => a.(status := Loaded, isLoaded := true, reported := a.reported + [Loaded])
    case Fail => a.(status := Error, reported := a.reported + [Error])
    case LoadStart => a.(status := Loading, isLoaded := false, reported := a.reported + [Loading])
    case SrcChange(newSrc) =>
      if newSrc == a.src then a
      else if Truthy(newSrc) then a.(src := newSrc, status := Loading, isLoaded := false)
      else a.(src := newSrc)
    case TimerElapsed => if a.delayMs > 0 then a.(canRender := true) else a
  }

  /** A run of events, in order. */
  function Run(a: AvatarModel, events: seq<Event>): AvatarModel
    decreases |events|
  {
    if events == [] then a else Run(Step(a, events[0]), events[1..])
  }

  /** The `block`/`hidden` class of the image: shown only once loaded. */
  predicate ImageVisible(a: AvatarModel) {
    a.status == Loaded
  }

  /** `shouldShow` of the fallback. */
  predicate FallbackShown(a: AvatarModel) {
    a.canRender && (a.status == Loading || a.status == Error)
  }

  /** Image and fallback are never shown together; once the fallback may render, exactly one is. */
  lemma ImageXorFallback(a: AvatarModel)
    ensures !(ImageVisible(a) && FallbackShown(a))
    ensures a.canRender ==> (ImageVisible(a) || FallbackShown(a))
  {
  }

  /** Each load, error and load-start reports exactly the status it sets. */
  lemma ReportsMatchStatus(a: AvatarModel, e: Event)
    requires e.Load? || e.Fail? || e.LoadStart?
    ensures Step(a, e).reported == a.reported + [Step(a, e).status]
  {
  }

  /** Once the fallback may render, it stays allowed whatever happens next. */
  lemma {:induction false} CanRenderStays(a: AvatarModel, events: seq<Event>)
    requires a.canRender
    decreases |events|
    ensures Run(a, events).canRender
  {
    if events != [] {
      CanRenderStays(Step(a, events[0]), events[1..]);
    }
  }

  /**
   * From mount, the fallback may render iff `delayMs` is 0, or it is
   * positive and the timer has fired; a negative delay never lets it render.
   */
  lemma {:induction false} CanRenderIff(src: Option<string>, delayMs: Option<int>, events: seq<Event>)
    ensures var d := delayMs.GetOr(0);
      Run(Initial(src, delayMs), events).canRender <==> d == 0 || (d > 0 && TimerElapsed in events)
  {
    CanRenderFrom(Initial(src, delayMs), events);
  }

  /** The general form of `CanRenderIff`, from any state. */
  lemma {:induction false} CanRenderFrom(a: AvatarModel, events: seq<Event>)
    decreases |events|
    ensures Run(a, events).delayMs == a.delayMs
    ensures Run(a, events).canRender <==> a.canRender || (a.delayMs > 0 && TimerElapsed in events)
  {
    if events != [] {
      var a1 := Step(a, events[0]);
      CanRenderFrom(a1, events[1..]);
      assert events == [events[0]] + events[1..];
      assert TimerElapsed in events <==> events[0] == TimerElapsed || TimerElapsed in events[1..];
    }
  }

  /**
   * Changing `src` to another non-empty value brings the fallback back
   * (when it may render) and hides the image, whatever the previous status.
   */
  lemma SrcChangeShowsFallback(a: AvatarModel, newSrc: string)
    requires newSrc != "" && a.src != Some(newSrc) && a.canRender
    ensures !ImageVisible(Step(a, SrcChange(Some(newSrc))))
    ensures FallbackShown(Step(a, SrcChange(Some(newSrc))))
  {
  }

  /** Removing `src` (or emptying it) does not reset the status. */
  lemma FalsySrcKeepsStatus(a: AvatarModel, newSrc: Option<string>)
    requires !Truthy(newSrc)
    ensures Step(a, SrcChange(newSrc)).status == a.status
  {
  }

  /** The loading status a component inside an `Avatar` reads from the avatar context. */
  datatype AvatarContext = AvatarContext(imageLoadingStatus: LoadingStatus)

  const OutsideAvatarMessage: string := "Avatar components must be used within Avatar"

  /** `useAvatarContext()`: outside an `Avatar` there is no context and the hook throws. */
  function UseAvatarContext(context: Option<AvatarContext>): (r: Result<AvatarContext, string>)
    ensures r.Failure? <==> context.None?
    ensures r.Failure? ==> r.error == OutsideAvatarMessage
    ensures r.Success? ==> r.value == context.value
  {
    if context.None? then Failure(OutsideAvatarMessage) else Success(context.value)
  }

  /** One mounted `Avatar` with its `AvatarImage` and `AvatarFallback`. */
  class MountedAvatar {
    var imageLoadingStatus: LoadingStatus
    var isLoaded: bool
    var reported: seq<LoadingStatus>
    var src: Option<string>
    const delayMs: int
    var canRender: bool

    function Model(): AvatarModel
      reads this
    {
      AvatarModel(imageLoadingStatus, isLoaded, reported, src, delayMs, canRender)
    }

    constructor (src: Option<string>, delayMs: Option<int>)
      ensures Model() == Initial(src, delayMs)
    {
      imageLoadingStatus := Loading;
      isLoaded := false;
      reported := [];
      this.src := src;
      this.delayMs := delayMs.GetOr(0);
      canRender := delayMs.GetOr(0) == 0;
    }

    method HandleLoad()
      modifies this
      ensures Model() == Step(old(Model()), Load)
    {
      imageLoadingStatus := Loaded;
      isLoaded := true;
      reported := reported + [Loaded];
    }

    method HandleError()
      modifies this
      ensures Model() == Step(old(Model()), Fail)
    {
      imageLoadingStatus := Error;
      reported := reported + [Error];
    }

    method HandleLoadStart()
      modifies this
      ensures Model() == Step(old(Model()), LoadStart)
    {
      imageLoadingStatus := Loading;
      isLoaded := false;
      reported := reported + [Loading];
    }

    /** The image is rendered with `newSrc`; the effect runs only when the prop changed. */
    method SetSrc(newSrc: Option<string>)
      modifies this
      ensures Model() == Step(old(Model()), SrcChange(newSrc))
    {
      if newSrc == src {
        return;
      }
      src := newSrc;
      if newSrc.Some? && newSrc.value != "" {
        imageLoadingStatus := Loading;
        isLoaded := false;
      }
    }

    /** The fallback's timer fires; it was only set when `delayMs > 0`. */
    method TimerFires()
      modifies this
      ensures Model() == Step(old(Model()), TimerElapsed)
    {
      if delayMs > 0 {
        canRender := true;
      }
    }
  }
}
