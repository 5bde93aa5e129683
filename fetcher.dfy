/**
 * Fetching and delivering content: the dispatch from a target's kind to its
 * handler, the URLs each handler fetches, the Skywatch retry policy on
 * "404 Not Found" responses, and the routing of the fetched text to the
 * recipient or of a failure to the guild's listeners.
 */
module Fetcher {
  import opened Wrappers
  import opened Text
  import opened Constants
  import opened Communicator
  import opened FetchTarget

  /** The handler methods `dispatch` can call. */
  datatype Handler = Skywatch | AstrologyAnswers | Sign

  const NOT_A_FUNCTION := "TypeError: this[target.what] is not a function"

  /**
   * `dispatch`: call the method named by the target's kind; the constructor
   * adds one method per sign name, all of them `Sign`. A target with no kind
   * (or no fields at all) names no method and the call throws. Every kind a
   * target can hold comes from `normalizeWhat`, so the other members of the
   * fetcher (`send`, `fetchData`, ...) are never named.
   */
  function Dispatch(t: FetchTarget): (r: Result<Handler>)
    requires Normalised(t)
    ensures r.Ok? <==> t.Target? && t.what.Some?
    ensures r == Ok(Skywatch) <==> t.Target? && t.what == Some(SKYWATCH)
    ensures r == Ok(AstrologyAnswers) <==> t.Target? && t.what == Some(ASTROLOGY_ANSWERS)
    ensures r == Ok(Sign) <==> t.Target? && t.what.Some? && t.what.value in SIGNS.Values
  {
    if t.Unresolved? || t.what.None? then Err(NOT_A_FUNCTION)
    else if t.what.value == SKYWATCH then Ok(Skywatch)
    else if t.what.value == ASTROLOGY_ANSWERS then Ok(AstrologyAnswers)
    else Ok(Sign)
  }

  /** Every sign name is routed to `Sign`, and every kind `normalizeWhat` can produce has a handler. */
  lemma DispatchTotal(g: string, what: string, c: Communicator)
    ensures forall k | k in SIGNS :: Dispatch(Target(g, Some(SIGNS[k]), c)) == Ok(Sign)
    ensures NormalizeWhat(what).Some? ==> Dispatch(New(g, what, Some(c))).Ok?
  {
    forall k | k in SIGNS ensures Dispatch(Target(g, Some(SIGNS[k]), c)) == Ok(Sign) {
      assert SIGNS[k] in SIGNS.Values;
      assert SIGNS[k] != SKYWATCH && SIGNS[k] != ASTROLOGY_ANSWERS;
    }
  }

  /** What a fetch comes back with: a 404, a page (reduced to the content the handler extracts), or a stream error. */
  datatype Response = NotFound | Page(content: string) | StreamError(err: string)

  /** What a handler does next: fetch a URL, send text to the recipient, or report an error to the listeners. */
  datatype Action = Fetch(url: string) | Deliver(text: string) | Fail(err: string)

  /** The local date `Skywatch` reads from the clock. */
  datatype Day = Day(weekday: string, month: string, day: nat, year: int)

  const SKYWATCH_BASE := "https://skywatchastrology.com"
  const GAVE_UP := "Couldn't find it"

  function DateUri(d: Day): string {
    Lower(d.weekday) + "-" + Lower(d.month) + "-" + NatText(d.day)
  }

  /**
   * The first URL: the date with the year appended, which is the retry URL
   * for a count equal to the year, and never the page without a suffix.
   */
  function FirstUrl(d: Day): (url: string)
    ensures d.year > 1 ==> url == RetryUrl(d, d.year)
    ensures url != PlainUrl(d)
  {
    SKYWATCH_BASE + "/" + DateUri(d) + "-" + IntText(d.year) + "/"
  }

  /** A retry: the date with `-mod` appended only when `mod` is above 1. */
  function RetryUrl(d: Day, mod: int): (url: string)
    ensures mod <= 1 ==> url == PlainUrl(d)
    ensures mod > 1 ==> |url| == |PlainUrl(d)| + 1 + |NatText(mod)| && url != PlainUrl(d)
  {
    SKYWATCH_BASE + "/" + DateUri(d) + (if mod > 1 then "-" + IntText(mod) else "") + "/"
  }

  /** The retry URL with no suffix. */
  function PlainUrl(d: Day): (url: string)
    ensures StartsWith(url, SKYWATCH_BASE + "/") && url[|url| - 1] == '/'
  {
    SKYWATCH_BASE + "/" + DateUri(d) + "/"
  }

  /** The weekend page, `the-weekend-<month>-<day>-<day + 1>`, without a trailing slash. */
  function WeekendUrl(d: Day): (url: string)
    ensures StartsWith(url, SKYWATCH_BASE + "/the-weekend-") && url[|url| - 1] != '/'
  {
    NatTextDigits(d.day + 1);
    SKYWATCH_BASE + "/the-weekend-" + Lower(d.month) + "-" + NatText(d.day) + "-" + NatText(d.day + 1)
  }

  predicate IsWeekendDay(d: Day) {
    Lower(d.weekday) == "saturday" || Lower(d.weekday) == "sunday"
  }

  /** The retry URL has a suffix exactly when `mod` is above 1, and the weekend URL is none of the retry URLs. */
  lemma UrlShapes(d: Day, mod: int)
    ensures mod <= 1 ==> RetryUrl(d, mod) == PlainUrl(d)
    ensures mod > 1 ==> RetryUrl(d, mod) == SKYWATCH_BASE + "/" + DateUri(d) + "-" + NatText(mod) + "/"
    ensures WeekendUrl(d) != RetryUrl(d, mod)
  {
    var r := RetryUrl(d, mod);
    assert r[|r| - 1] == '/';
  }

  /** Sent for a Skywatch page: the date in bold, the entry with its line breaks doubled, and the site. */
  function SkywatchText(d: Day, entry: string): (text: string)
    ensures StartsWith(text, "**" + d.weekday + ", ")
    ensures |text| >= |SKYWATCH_BASE| && text[|text| - |SKYWATCH_BASE|..] == SKYWATCH_BASE
  {
    "**" + d.weekday + ", " + d.month + " " + NatText(d.day) + "**\n\n" + DoubleNewlines(entry) + "\n\n" + SKYWATCH_BASE
  }

  /** The two variables the `skywatchResult` callback updates. */
  datatype SkyState = SkyState(mod: int, weekend: bool)

  /** `mod` after a 404: down to 3 when above 3, otherwise one less. */
  function Retreat(mod: int): (m: int)
    ensures m < mod || mod > 3
    ensures m <= 3
  {
    if mod > 3 then 3 else mod - 1
  }

  /**
   * The 404 branch once it is known whether the suffixes are used up: then
   * the weekend page once on a Saturday or Sunday, else give up; otherwise
   * the next retry URL.
   */
  function OnNotFound(d: Day, st: SkyState, usedUp: bool): (res: (SkyState, Action))
    ensures res.0.mod == Retreat(st.mod)
    ensures res.0.weekend == (st.weekend || (usedUp && IsWeekendDay(d)))
    ensures res.1.Fail? <==> usedUp && (st.weekend || !IsWeekendDay(d))
    ensures !usedUp ==> res.1 == Fetch(RetryUrl(d, Retreat(st.mod)))
  {
    var mod := Retreat(st.mod);
    if usedUp then
      if !st.weekend && IsWeekendDay(d) then (SkyState(mod, true), Fetch(WeekendUrl(d)))
      else (SkyState(mod, st.weekend), Fail(GAVE_UP))
    else (SkyState(mod, st.weekend), Fetch(RetryUrl(d, mod)))
  }

  /**
   * `skywatchResult` as written: the suffixes count as used up only when
   * `mod` is exactly 0. A page is sent; a stream error goes to `onError`.
   */
  function Step(d: Day, st: SkyState, r: Response): (res: (SkyState, Action))
    ensures r.NotFound? ==> res.0.mod == Retreat(st.mod)
    ensures r.NotFound? ==> res.0.weekend == (st.weekend || (Retreat(st.mod) == 0 && IsWeekendDay(d)))
    ensures r.NotFound? && Retreat(st.mod) != 0 ==> res.1 == Fetch(RetryUrl(d, Retreat(st.mod)))
    ensures r.NotFound? && Retreat(st.mod) == 0 ==>
      res.1 == (if !st.weekend && IsWeekendDay(d) then Fetch(WeekendUrl(d)) else Fail(GAVE_UP))
    ensures r.Page? ==> res == (st, Deliver(SkywatchText(d, r.content)))
    ensures r.StreamError? ==> res == (st, Fail(r.err))
  {
    match r
    case NotFound => OnNotFound(d, st, Retreat(st.mod) == 0)
    case Page(entry) => (st, Deliver(SkywatchText(d, entry)))
    case StreamError(e) => (st, Fail(e))
  }

  /** `skywatchResult` with the guard `mod <= 0`: a count that went below 0 also means the suffixes are used up. */
  function StepFixed(d: Day, st: SkyState, r: Response): (res: (SkyState, Action))
    ensures r.NotFound? && Retreat(st.mod) > 0 ==> res == (SkyState(Retreat(st.mod), st.weekend), Fetch(RetryUrl(d, Retreat(st.mod))))
    ensures r.NotFound? && Retreat(st.mod) <= 0 ==>
      res.1 == (if !st.weekend && IsWeekendDay(d) then Fetch(WeekendUrl(d)) else Fail(GAVE_UP))
    ensures !r.NotFound? ==> res == Step(d, st, r)
  {
    match r
    case NotFound => OnNotFound(d, st, Retreat(st.mod) <= 0)
    case _ => Step(d, st, r)
  }

  /** The actions taken while every fetch answers 404, for at most `fuel` responses. */
  function Trace(d: Day, st: SkyState, fuel: nat): (tr: seq<Action>)
    ensures |tr| <= fuel
    decreases fuel
  {
    if fuel == 0 then []
    else
      var (st', a) := Step(d, st, NotFound);
      [a] + (if a.Fetch? then Trace(d, st', fuel - 1) else [])
  }

  /** The same with the corrected guard. */
  function TraceFixed(d: Day, st: SkyState, fuel: nat): (tr: seq<Action>)
    ensures |tr| <= fuel
    decreases fuel
  {
    if fuel == 0 then []
    else
      var (st', a) := StepFixed(d, st, NotFound);
      [a] + (if a.Fetch? then TraceFixed(d, st', fuel - 1) else [])
  }

  /**
   * On a weekday, after the first URL (`-<year>`) has answered 404, the next
   * fetches are `-3`, `-2` and the plain URL, and then the error is reported
   * once: four fetches in all.
   */
  lemma {:induction false} WeekdayGivesUp(d: Day, fuel: nat)
    requires !IsWeekendDay(d) && d.year > 3 && fuel >= 4
    ensures Trace(d, SkyState(d.year, false), fuel) ==
      [Fetch(RetryUrl(d, 3)), Fetch(RetryUrl(d, 2)), Fetch(PlainUrl(d)), Fail(GAVE_UP)]
  {
    UrlShapes(d, 1);
    assert Trace(d, SkyState(1, false), fuel - 3) == [Fail(GAVE_UP)];
    assert Trace(d, SkyState(2, false), fuel - 2) == [Fetch(PlainUrl(d)), Fail(GAVE_UP)];
    assert Trace(d, SkyState(3, false), fuel - 1) == [Fetch(RetryUrl(d, 2)), Fetch(PlainUrl(d)), Fail(GAVE_UP)];
    assert Step(d, SkyState(d.year, false), NotFound) == (SkyState(3, false), Fetch(RetryUrl(d, 3)));
  }

  /** `n` copies of one action. */
  function Repeat(a: Action, n: nat): (r: seq<Action>)
    ensures |r| == n
    ensures forall i :: 0 <= i < n ==> r[i] == a
  {
    if n == 0 then [] else [a] + Repeat(a, n - 1)
  }

  /** Once the weekend page has been tried with `mod` at 0 or below, every 404 refetches the plain URL: the count never reaches 0 again. */
  lemma {:induction false} NeverGivesUp(d: Day, mod: int, fuel: nat)
    requires mod <= 0
    ensures Trace(d, SkyState(mod, true), fuel) == Repeat(Fetch(PlainUrl(d)), fuel)
    decreases fuel
  {
    if fuel > 0 {
      PlainRefetch(d, mod, fuel);
      NeverGivesUp(d, mod - 1, fuel - 1);
    }
  }

  /** One 404 after the weekend page: the plain URL again, with the count one lower. */
  lemma {:induction false} PlainRefetch(d: Day, mod: int, fuel: nat)
    requires mod <= 0 && fuel > 0
    ensures Trace(d, SkyState(mod, true), fuel) == [Fetch(PlainUrl(d))] + Trace(d, SkyState(mod - 1, true), fuel - 1)
  {
    UrlShapes(d, mod - 1);
    assert Step(d, SkyState(mod, true), NotFound) == (SkyState(mod - 1, true), Fetch(PlainUrl(d)));
    TraceFetches(d, SkyState(mod, true), fuel);
  }

  /**
   * On a Saturday or Sunday the policy never reports an error: after `-3`,
   * `-2`, the plain URL and the weekend page, it fetches the plain URL again
   * on every 404, for as many responses as there are.
   */
  lemma {:induction false} WeekendNeverGivesUp(d: Day, fuel: nat)
    requires IsWeekendDay(d) && d.year > 3 && fuel >= 4
    ensures Trace(d, SkyState(d.year, false), fuel) ==
      [Fetch(RetryUrl(d, 3)), Fetch(RetryUrl(d, 2)), Fetch(PlainUrl(d)), Fetch(WeekendUrl(d))]
      + Repeat(Fetch(PlainUrl(d)), fuel - 4)
  {
    WeekendFirstFour(d, fuel);
    NeverGivesUp(d, 0, fuel - 4);
  }

  /** The first four 404s on a weekend day: `-3`, `-2`, the plain URL, then the weekend page. */
  lemma {:induction false} WeekendFirstFour(d: Day, fuel: nat)
    requires IsWeekendDay(d) && d.year > 3 && fuel >= 4
    ensures Trace(d, SkyState(d.year, false), fuel) ==
      [Fetch(RetryUrl(d, 3)), Fetch(RetryUrl(d, 2)), Fetch(PlainUrl(d)), Fetch(WeekendUrl(d))]
      + Trace(d, SkyState(0, true), fuel - 4)
  {
    WeekendSteps(d);
    WeekendLastThree(d, fuel - 1);
    TraceStep(d, SkyState(d.year, false), fuel, SkyState(3, false), Fetch(RetryUrl(d, 3)));
    ConsFour(Fetch(RetryUrl(d, 3)), Fetch(RetryUrl(d, 2)), Fetch(PlainUrl(d)), Fetch(WeekendUrl(d)), Trace(d, SkyState(0, true), fuel - 4));
  }

  /** The second to fourth 404s on a weekend day, from `mod` 3. */
  lemma {:induction false} WeekendLastThree(d: Day, fuel: nat)
    requires IsWeekendDay(d) && d.year > 3 && fuel >= 3
    ensures Trace(d, SkyState(3, false), fuel) ==
      [Fetch(RetryUrl(d, 2)), Fetch(PlainUrl(d)), Fetch(WeekendUrl(d))] + Trace(d, SkyState(0, true), fuel - 3)
  {
    WeekendSteps(d);
    TraceStep(d, SkyState(1, false), fuel - 2, SkyState(0, true), Fetch(WeekendUrl(d)));
    TraceStep(d, SkyState(2, false), fuel - 1, SkyState(1, false), Fetch(PlainUrl(d)));
    TraceStep(d, SkyState(3, false), fuel, SkyState(2, false), Fetch(RetryUrl(d, 2)));
    ConsThree(Fetch(RetryUrl(d, 2)), Fetch(PlainUrl(d)), Fetch(WeekendUrl(d)), Trace(d, SkyState(0, true), fuel - 3));
  }

  /** Regrouping the fetches at the head of a trace. */
  lemma ConsThree(a: Action, b: Action, c: Action, t: seq<Action>)
    ensures [a] + ([b] + ([c] + t)) == [a, b, c] + t
  {
  }

  lemma ConsFour(a: Action, b: Action, c: Action, e: Action, t: seq<Action>)
    ensures [a] + ([b, c, e] + t) == [a, b, c, e] + t
  {
  }

  /** The states and fetches of the first four 404s on a weekend day. */
  lemma WeekendSteps(d: Day)
    requires IsWeekendDay(d) && d.year > 3
    ensures Step(d, SkyState(d.year, false), NotFound) == (SkyState(3, false), Fetch(RetryUrl(d, 3)))
    ensures Step(d, SkyState(3, false), NotFound) == (SkyState(2, false), Fetch(RetryUrl(d, 2)))
    ensures Step(d, SkyState(2, false), NotFound) == (SkyState(1, false), Fetch(PlainUrl(d)))
    ensures Step(d, SkyState(1, false), NotFound) == (SkyState(0, true), Fetch(WeekendUrl(d)))
  {
    UrlShapes(d, 1);
  }

  /** The same, with the next state and the fetch named. */
  lemma {:induction false} TraceStep(d: Day, st: SkyState, fuel: nat, next: SkyState, a: Action)
    requires fuel > 0 && Step(d, st, NotFound) == (next, a) && a.Fetch?
    ensures Trace(d, st, fuel) == [a] + Trace(d, next, fuel - 1)
  {
    TraceFetches(d, st, fuel);
  }

  /** A 404 answered by a further fetch continues the trace from the next state. */
  lemma TraceFetches(d: Day, st: SkyState, fuel: nat)
    requires fuel > 0 && Step(d, st, NotFound).1.Fetch?
    ensures Trace(d, st, fuel) == [Step(d, st, NotFound).1] + Trace(d, Step(d, st, NotFound).0, fuel - 1)
  {
  }


  /** The number of fetches left before the corrected policy gives up. */
  function FetchesLeft(d: Day, st: SkyState): nat {
    (if st.mod > 3 then 3 else if st.mod >= 1 then st.mod - 1 else 0)
    + (if !st.weekend && IsWeekendDay(d) then 1 else 0)
  }

  /**
   * With the corrected guard every run of 404s ends: exactly `FetchesLeft`
   * fetches, then one error report, whatever the starting count.
   */
  lemma {:induction false} FixedGivesUp(d: Day, st: SkyState, fuel: nat)
    requires fuel > FetchesLeft(d, st)
    ensures var tr := TraceFixed(d, st, fuel);
      && |tr| == FetchesLeft(d, st) + 1
      && tr[|tr| - 1] == Fail(GAVE_UP)
      && forall i :: 0 <= i < |tr| - 1 ==> tr[i].Fetch?
    decreases fuel
  {
    var (st', a) := StepFixed(d, st, NotFound);
    var tr := TraceFixed(d, st, fuel);
    if a.Fetch? {
      assert FetchesLeft(d, st') == FetchesLeft(d, st) - 1;
      FixedGivesUp(d, st', fuel - 1);
      var rest := TraceFixed(d, st', fuel - 1);
      assert tr == [a] + rest;
      assert forall i :: 1 <= i < |tr| ==> tr[i] == rest[i - 1];
    } else {
      assert tr == [a];
    }
  }

  /** On a weekend the corrected policy tries the weekend page once and then reports the error. */
  lemma {:induction false} FixedWeekendGivesUp(d: Day, fuel: nat)
    requires IsWeekendDay(d) && d.year > 3 && fuel >= 5
    ensures TraceFixed(d, SkyState(d.year, false), fuel) ==
      [Fetch(RetryUrl(d, 3)), Fetch(RetryUrl(d, 2)), Fetch(PlainUrl(d)), Fetch(WeekendUrl(d)), Fail(GAVE_UP)]
  {
    UrlShapes(d, 1);
    assert TraceFixed(d, SkyState(0, true), fuel - 4) == [Fail(GAVE_UP)];
    assert TraceFixed(d, SkyState(1, false), fuel - 3) == [Fetch(WeekendUrl(d)), Fail(GAVE_UP)];
    assert TraceFixed(d, SkyState(2, false), fuel - 2) == [Fetch(PlainUrl(d)), Fetch(WeekendUrl(d)), Fail(GAVE_UP)];
    assert TraceFixed(d, SkyState(3, false), fuel - 1) == [Fetch(RetryUrl(d, 2)), Fetch(PlainUrl(d)), Fetch(WeekendUrl(d)), Fail(GAVE_UP)];
    assert StepFixed(d, SkyState(d.year, false), NotFound) == (SkyState(3, false), Fetch(RetryUrl(d, 3)));
  }

  /**
   * The retry state of one Skywatch fetch: the closure's `mod` and `weekend`,
   * updated by each response.
   */
  class SkywatchFetch {
    const day: Day
    var mod: int
    var weekend: bool

    /** `Skywatch`: the count starts at the year and the weekend page has not been tried; the first fetch is `FirstUrl`. */
    constructor (d: Day)
      ensures day == d && mod == d.year && !weekend
    {
      day := d;
      mod := d.year;
      weekend := false;
    }

    /** `skywatchResult`, as written. */
    method OnResponse(r: Response) returns (a: Action)
      modifies this
      ensures (SkyState(mod, weekend), a) == Step(day, SkyState(old(mod), old(weekend)), r)
    {
      if r.NotFound? {
        if mod > 3 {
          mod := 3;
        } else {
          mod := mod - 1;
        }
        if mod == 0 {
          if !weekend && IsWeekendDay(day) {
            weekend := true;
            a := Fetch(WeekendUrl(day));
          } else {
            a := Fail(GAVE_UP);
          }
          return;
        }
        a := Fetch(RetryUrl(day, mod));
        return;
      }
      match r
      case Page(entry) => a := Deliver(SkywatchText(day, entry));
      case StreamError(e) => a := Fail(e);
    }
  }

  const SIGN_HOST := "https://astrologyanswers.com/horoscopes"

  /** `Sign`'s URL: the sign name lower-cased, then `-daily-horoscope/`. */
  function SignUrl(what: string): (url: string)
    ensures StartsWith(url, SIGN_HOST + "/")
    ensures |what| >= 3 ==> |url| >= |SIGN_HOST| + 4 && url[|SIGN_HOST| + 1..|SIGN_HOST| + 4] == Lower(what[..3])
  {
    var url := SIGN_HOST + "/" + Lower(what) + "-daily-horoscope/";
    assert url[|SIGN_HOST| + 1..|SIGN_HOST| + 1 + |what|] == Lower(what);
    assert |what| >= 3 ==> Lower(what)[..3] == Lower(what[..3]);
    url
  }

  /** Each sign has its own page: different signs are fetched from different URLs. */
  lemma SignUrlsDistinct(k1: string, k2: string)
    requires k1 in SIGNS && k2 in SIGNS && k1 != k2
    ensures SignUrl(SIGNS[k1]) != SignUrl(SIGNS[k2])
  {
    SignKeysArePrefixes();
    var n := |SIGN_HOST| + 1;
    assert SignUrl(SIGNS[k1])[n..n + 3] == k1;
    assert SignUrl(SIGNS[k2])[n..n + 3] == k2;
  }

  /** `Sign`'s callback: a single attempt, a 404 reported as "404", a page sent as the sign in bold, the entry and the host. */
  function SignResult(what: string, r: Response): (a: Action)
    ensures !a.Fetch?
    ensures r.NotFound? ==> a == Fail("404")
    ensures r.StreamError? ==> a == Fail(r.err)
  {
    match r
    case NotFound => Fail("404")
    case Page(entry) => Deliver("**" + what + ":**\n\n" + DoubleNewlines(entry) + "\n\n" + SIGN_HOST)
    case StreamError(e) => Fail(e)
  }

  /**
   * The URL `AstrologyAnswers` requests: `Https.get` on host api.twitter.com
   * with the search for the account's latest daily-reading post. (The log
   * line writes the same host and path with an `http://` prefix.)
   */
  const ASTROLOGY_ANSWERS_URL :=
    "https://api.twitter.com/1.1/search/tweets.json?q=(%23dailyreading)%20(from%3AAstrologyAnswer)&result_type=recent&count=1&include_entities=1&tweet_mode=extended"

  /** `AstrologyAnswers`' callback: a single attempt, a 404 reported as "404", otherwise the image URL of the post is sent. */
  function AstrologyAnswersResult(r: Response): (a: Action)
    ensures !a.Fetch?
    ensures r.NotFound? ==> a == Fail("404")
    ensures r.StreamError? ==> a == Fail(r.err)
    ensures r.Page? ==> a == Deliver(r.content)
  {
    match r
    case NotFound => Fail("404")
    case Page(mediaUrl) => Deliver(mediaUrl)
    case StreamError(e) => Fail(e)
  }

  /** The first fetch of each handler. */
  function FirstFetch(t: FetchTarget, d: Day): (r: Result<Action>)
    requires Normalised(t)
    ensures r.Ok? <==> Dispatch(t).Ok?
    ensures Dispatch(t) == Ok(Skywatch) ==> r == Ok(Fetch(FirstUrl(d)))
    ensures Dispatch(t) == Ok(Sign) ==> r == Ok(Fetch(SignUrl(t.what.value)))
    ensures Dispatch(t) == Ok(AstrologyAnswers) ==> r == Ok(Fetch(ASTROLOGY_ANSWERS_URL))
  {
    match Dispatch(t)
    case Err(e) => Err(e)
    case Ok(Skywatch) => Ok(Fetch(FirstUrl(d)))
    case Ok(AstrologyAnswers) => Ok(Fetch(ASTROLOGY_ANSWERS_URL))
    case Ok(Sign) => Ok(Fetch(SignUrl(t.what.value)))
  }

  /**
   * `send`: log the target (which throws when the recipient is undefined),
   * then hand the data to the cached user or channel with the recipient's
   * id, chosen by whether the recipient is a user.
   */
  function Send(t: FetchTarget, data: string, cache: Cache): (r: Result<Delivery>)
    requires t.Target?
    ensures r.Ok? <==> (t.recipient.entity.Some? &&
      (if EntityIsUser(t.recipient.entity.value) then t.recipient.entity.value.id in cache.users
       else t.recipient.entity.value.id in cache.channels))
    ensures r.Ok? ==> r.value.data == data
    ensures r.Ok? && EntityIsUser(t.recipient.entity.value) ==> r.value.to == cache.users[t.recipient.entity.value.id]
    ensures r.Ok? && !EntityIsUser(t.recipient.entity.value) ==> r.value.to == cache.channels[t.recipient.entity.value.id]
  {
    match ForLog(t)
    case Err(e) => Err(e)
    case Ok(_) =>
      var id := t.recipient.entity.value.id;
      if IsUser(t.recipient).value then
        if id in cache.users then Ok(Delivery(cache.users[id], data)) else Err(NO_SEND)
      else
        if id in cache.channels then Ok(Delivery(cache.channels[id], data)) else Err(NO_SEND)
  }

  /** A recipient that is still cached gets the data itself. */
  lemma SendReachesRecipient(t: FetchTarget, data: string, cache: Cache)
    requires t.Target? && t.recipient.entity.Some? && Cached(t.recipient.entity.value, cache)
    ensures Send(t, data, cache) == Ok(Delivery(t.recipient.entity.value, data))
  {
  }

  /** A failure notice for the listeners of a guild. */
  datatype Notice = Notice(guildId: string, msg: string)

  /** `onError`: "Failed to fetch <what>: <err>", sent to the listeners of the target's guild. */
  function OnError(t: FetchTarget, err: string): (n: Notice)
    requires t.Target?
    ensures n.guildId == t.guildId
    ensures StartsWith(n.msg, "Failed to fetch ") && n.msg[16..] == WhatText(t.what) + ": " + err
  {
    Notice(t.guildId, "Failed to fetch " + WhatText(t.what) + ": " + err)
  }

  /** What an action turns into: a delivery to the recipient or a notice to the guild's listeners. */
  datatype Effect = Sent(delivery: Delivery) | Noticed(notice: Notice) | FetchNext(url: string)

  /** Carrying out a handler's action for a target. */
  function Perform(t: FetchTarget, a: Action, cache: Cache): (r: Result<Effect>)
    requires t.Target?
    ensures a.Fetch? ==> r == Ok(FetchNext(a.url))
    ensures a.Fail? ==> r == Ok(Noticed(OnError(t, a.err)))
    ensures a.Deliver? ==> (r.Ok? <==> Send(t, a.text, cache).Ok?)
    ensures a.Deliver? && r.Ok? ==> r.value == Sent(Send(t, a.text, cache).value)
  {
    match a
    case Fetch(url) => Ok(FetchNext(url))
    case Fail(err) => Ok(Noticed(OnError(t, err)))
    case Deliver(text) =>
      match Send(t, text, cache)
      case Err(e) => Err(e)
      case Ok(dl) => Ok(Sent(dl))
  }
}
