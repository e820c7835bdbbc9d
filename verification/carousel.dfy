/** The homepage banner carousel: which slide is on screen and how the
    arrows, the dots and the five-second timer move between slides. */
module Carousel {
  import opened Wrappers
  import opened Text
  import opened Seqs
  import opened Types

  /** JavaScript's `%` on integers: the remainder has the sign of the dividend
      (unlike Dafny's `%`, whose remainder is never negative). */
  function JsRem(a: int, b: int): (r: int)
    requires b > 0
    ensures a >= 0 ==> 0 <= r < b
    ensures a < 0 ==> -b < r <= 0
  {
    if a >= 0 then a % b
    else -((-a) % b)
  }

  /** `goToNext` and the timer: `(prev + 1) % banners.length`. The page only
      calls it with at least two banners. */
  function Next(i: int, n: int): (r: int)
    requires n > 0
    ensures 0 <= i ==> 0 <= r < n
    ensures 0 <= i < n - 1 ==> r == i + 1
    ensures i == n - 1 ==> r == 0
  {
    JsRem(i + 1, n)
  }

  /** `goToPrevious`: `(prev - 1 + banners.length) % banners.length`. */
  function Prev(i: int, n: int): (r: int)
    requires n > 0
    ensures 0 <= i < n ==> 0 <= r < n
    ensures 0 < i < n ==> r == i - 1
    ensures i == 0 ==> r == n - 1
  {
    JsRem(i - 1 + n, n)
  }

  /** Over an index on screen, "previous" undoes "next" and "next" undoes
      "previous". */
  lemma PrevUndoesNext(i: int, n: int)
    requires 0 <= i < n
    ensures Prev(Next(i, n), n) == i
    ensures Next(Prev(i, n), n) == i
  {
  }

  /** `k` steps of "next" from `i`. */
  function NextTimes(i: int, n: int, k: nat): int
    requires n > 0
  {
    if k == 0 then i else Next(NextTimes(i, n, k - 1), n)
  }

  /** Short of wrapping round, `k` steps of "next" move `k` places on. */
  lemma {:induction false} NextTimesAdvances(i: int, n: int, k: nat)
    requires 0 <= i && i + k < n
    ensures NextTimes(i, n, k) == i + k
  {
    if k > 0 {
      NextTimesAdvances(i, n, k - 1);
    }
  }

  /** `a` steps followed by `b` steps are `a + b` steps. */
  lemma {:induction false} NextTimesCompose(i: int, n: int, a: nat, b: nat)
    requires n > 0
    ensures NextTimes(i, n, a + b) == NextTimes(NextTimes(i, n, a), n, b)
  {
    if b > 0 {
      NextTimesCompose(i, n, a, b - 1);
    }
  }

  /** After as many timer ticks as there are banners the starting slide is
      back: `n - 1 - i` ticks reach the last slide, one more wraps to the
      first, and `i` more return to the start. */
  lemma FullCycleReturns(i: int, n: int)
    requires 0 <= i < n
    ensures NextTimes(i, n, n) == i
  {
    NextTimesAdvances(i, n, n - 1 - i);
    NextTimesCompose(i, n, n - 1 - i, 1);
    assert NextTimes(i, n, n - i) == 0;
    NextTimesAdvances(0, n, i);
    NextTimesCompose(i, n, n - i, i);
  }

  /** The carousel's state: the fetched banners, the slide on screen, and
      whether the fetch is still in flight. */
  datatype State = State(banners: seq<Banner>, current: int, loading: bool)

  const Initial := State([], 0, true)

  /** The slide index always names a banner once there is one to show. */
  ghost predicate Valid(s: State) {
    0 <= s.current && (s.current < |s.banners| || s.current == 0)
  }

  /** What can happen to the carousel. */
  datatype Event =
    | Fetched(result: Result<seq<Banner>, string>)
    | Tick
    | PressNext
    | PressPrevious
    | PressDot(index: int)

  /** The timer, the arrows and the dots exist only with more than one banner. */
  predicate HasControls(s: State) {
    |s.banners| > 1
  }

  /** One event. The fetch runs once, on mount: its answer is taken only while
      loading, and a failed or empty answer leaves no banners. A tick, an arrow
      or a dot does nothing when that control is not on the page. */
  function Step(s: State, e: Event): (r: State)
    ensures !e.Fetched? && !HasControls(s) ==> r == s
    ensures e.Fetched? && !s.loading ==> r == s
    ensures e.Fetched? ==> !r.loading && r.current == s.current
    ensures e.Fetched? && s.loading && e.result.Ok? && |e.result.value| > 0 ==> r.banners == e.result.value
    ensures e.Fetched? && (e.result.Err? || |e.result.value| == 0) ==> r.banners == s.banners
    ensures !e.Fetched? ==> r.banners == s.banners && r.loading == s.loading
  {
    match e
    case Fetched(res) =>
      if !s.loading then s
      else if res.Ok? && |res.value| > 0 then s.(banners := res.value, loading := false)
      else s.(loading := false)
    case Tick => if HasControls(s) then s.(current := Next(s.current, |s.banners|)) else s
    case PressNext => if HasControls(s) then s.(current := Next(s.current, |s.banners|)) else s
    case PressPrevious => if HasControls(s) then s.(current := Prev(s.current, |s.banners|)) else s
    case PressDot(k) => if HasControls(s) && 0 <= k < |s.banners| then s.(current := k) else s
  }

  /** The states the carousel can be in: a valid index, and nothing shown
      before the fetch has answered. */
  ghost predicate Reachable(s: State) {
    Valid(s) && (s.loading ==> s.banners == [] && s.current == 0)
  }

  /** Each event keeps the carousel in a reachable state. */
  lemma StepKeepsReachable(s: State, e: Event)
    requires Reachable(s)
    ensures Reachable(Step(s, e))
  {
  }

  function Run(s: State, es: seq<Event>): State
    decreases |es|
  {
    if |es| == 0 then s else Run(Step(s, es[0]), es[1..])
  }

  /** From a reachable state (the initial one, say), any sequence of events
      keeps the slide index on a banner. */
  lemma {:induction false} RunKeepsReachable(s: State, es: seq<Event>)
    requires Reachable(s)
    ensures Reachable(Run(s, es)) && Valid(Run(s, es))
    decreases |es|
  {
    if |es| > 0 {
      StepKeepsReachable(s, es[0]);
      RunKeepsReachable(Step(s, es[0]), es[1..]);
    }
  }

  /** What the section renders. */
  datatype Hero =
    | DefaultHero
    | Slide(imageUrl: string, alt: string, title: string, subtitle: string, buttonText: string, buttonLink: string)

  /** The section: the default hero while loading or with no banners,
      otherwise the current banner with the fallback texts. */
  function View(s: State): (h: Hero)
    requires Valid(s)
    ensures h.DefaultHero? <==> s.loading || |s.banners| == 0
    ensures h.Slide? ==> h.imageUrl == s.banners[s.current].imageUrl
    ensures h.Slide? ==> h.title != "" && h.subtitle != "" && h.buttonText != "" && h.buttonLink != "" && h.alt != ""
    ensures h.Slide? ==> var b := s.banners[s.current];
      (b.title.Some? && b.title.value != "" ==> h.alt == b.title.value && h.title == b.title.value) &&
      (b.title.None? || b.title.value == "" ==> h.alt == "Banner" && h.title == "Discover Your") &&
      (b.subtitle.Some? && b.subtitle.value != "" ==> h.subtitle == b.subtitle.value) &&
      (b.subtitle.None? || b.subtitle.value == "" ==> h.subtitle == "Signature Scent") &&
      (b.buttonText != "" ==> h.buttonText == b.buttonText) &&
      (b.buttonText == "" ==> h.buttonText == "Shop Now") &&
      (b.buttonLink != "" ==> h.buttonLink == b.buttonLink) &&
      (b.buttonLink == "" ==> h.buttonLink == "/products")
  {
    if s.loading || |s.banners| == 0 then DefaultHero
    else
      var b := s.banners[s.current];
      Slide(b.imageUrl, OptOrElse(b.title, "Banner"), OptOrElse(b.title, "Discover Your"),
        OptOrElse(b.subtitle, "Signature Scent"), OrElse(b.buttonText, "Shop Now"),
        OrElse(b.buttonLink, "/products"))
  }

  /** The dots: one per banner when there are at least two, the one at the
      current index highlighted. */
  function Dots(s: State): (d: seq<bool>)
    ensures HasControls(s) ==> |d| == |s.banners|
    ensures !HasControls(s) ==> d == []
    ensures forall i :: 0 <= i < |d| ==> (d[i] <==> i == s.current)
  {
    if HasControls(s) then seq(|s.banners|, i => i == s.current) else []
  }

  function IsTrue(b: bool): bool { b }

  /** With an index on a banner and at least two banners, exactly one dot is highlighted. */
  lemma {:induction false} ExactlyOneDotActive(s: State)
    requires Valid(s) && HasControls(s)
    ensures Count(Dots(s), IsTrue) == 1
  {
    var d := Dots(s);
    OneTrueCount(d, s.current);
  }

  lemma {:induction false} OneTrueCount(d: seq<bool>, k: int)
    requires 0 <= k < |d|
    requires forall i :: 0 <= i < |d| ==> (d[i] <==> i == k)
    ensures Count(d, IsTrue) == 1
  {
    if k == 0 {
      NoneTrueCount(d[1..]);
    } else {
      OneTrueCount(d[1..], k - 1);
    }
  }

  lemma {:induction false} NoneTrueCount(d: seq<bool>)
    requires forall i :: 0 <= i < |d| ==> !d[i]
    ensures Count(d, IsTrue) == 0
  {
    if |d| > 0 {
      NoneTrueCount(d[1..]);
    }
  }
}
