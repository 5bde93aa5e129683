/**
 * A fetch target: which content to fetch (`what`), for which guild, and the
 * recipient it goes to; and its job name, the string
 * `<what>@<guildId>#<u|c><recipient id>` under which it is scheduled and stored.
 */
module FetchTarget {
  import opened Wrappers
  import opened Text
  import opened Constants
  import opened Communicator

  const SKYWATCH := "Skywatch"
  const ASTROLOGY_ANSWERS := "AstrologyAnswers"
  const NO_RECIPIENT := "couldn't find that recipient"
  const NO_MATCH := "TypeError: object null is not iterable (cannot read property Symbol(Symbol.iterator))"

  /** The canonical content kinds: the two feeds and the twelve signs. */
  predicate IsKind(w: string) {
    w == SKYWATCH || w == ASTROLOGY_ANSWERS || w in SIGNS.Values
  }

  /**
   * `normalizeWhat`: a raw kind, lower-cased, starting with "sky" is
   * Skywatch; else "aa" or anything starting with "astro" is
   * AstrologyAnswers; else its first three letters are looked up among the
   * signs, which may find nothing (`undefined`).
   */
  function NormalizeWhat(what: string): (r: Option<string>)
    ensures r.Some? ==> IsKind(r.value)
  {
    var low := Lower(what);
    if StartsWith(low, "sky") then Some(SKYWATCH)
    else if low == "aa" || StartsWith(low, "astro") then Some(ASTROLOGY_ANSWERS)
    else
      var key := if |low| < 3 then low else low[..3];
      if key in SIGNS then Some(SIGNS[key]) else None
  }

  /** The three rules of `normalizeWhat`, in their order of priority. */
  lemma NormalizeWhatRules(what: string)
    ensures StartsWith(Lower(what), "sky") ==> NormalizeWhat(what) == Some(SKYWATCH)
    ensures !StartsWith(Lower(what), "sky") && (Lower(what) == "aa" || StartsWith(Lower(what), "astro"))
      ==> NormalizeWhat(what) == Some(ASTROLOGY_ANSWERS)
    ensures forall k | k in SIGNS :: StartsWith(Lower(what), k) ==> NormalizeWhat(what) == Some(SIGNS[k])
    ensures |what| < 3 && Lower(what) != "aa" ==> NormalizeWhat(what) == None
    ensures NormalizeWhat(what).Some? ==>
      || StartsWith(Lower(what), "sky") || Lower(what) == "aa" || StartsWith(Lower(what), "astro")
      || exists k | k in SIGNS :: StartsWith(Lower(what), k)
  {
    var low := Lower(what);
    if NormalizeWhat(what).Some? && !StartsWith(low, "sky") && low != "aa" && !StartsWith(low, "astro") {
      var key := if |low| < 3 then low else low[..3];
      assert key in SIGNS && StartsWith(low, key);
    }
    forall k | k in SIGNS && StartsWith(low, k) ensures NormalizeWhat(what) == Some(SIGNS[k]) {
      assert |k| == 3;
      assert low[..3] == k;
      assert k != "sky" && k != "ast";
      assert !StartsWith(low, "sky");
      assert !StartsWith(low, "astro") by {
        if |low| >= 5 { assert low[..5][..3] == low[..3]; }
      }
    }
  }

  /** Every canonical kind normalises to itself, so `normalizeWhat` is idempotent on its results. */
  lemma {:induction false} NormalizeWhatIdempotent(w: string)
    requires IsKind(w)
    ensures NormalizeWhat(w) == Some(w)
  {
    if w == SKYWATCH {
      assert Lower(w)[..3] == "sky";
    } else if w == ASTROLOGY_ANSWERS {
      assert Lower(w)[..5] == "astro";
      assert Lower(w)[0] == 'a';
    } else {
      SignKeysArePrefixes();
      var k :| k in SIGNS && SIGNS[k] == w;
      assert StartsWith(Lower(w), k) by {
        assert Lower(w)[..3] == Lower(w[..3]);
      }
      NormalizeWhatRules(w);
    }
  }

  /** Each canonical kind is a run of word characters, as the job-name grammar demands. */
  lemma KindsAreWords(w: string)
    requires IsKind(w)
    ensures |w| > 0 && AllWordChars(w)
  {
  }

  datatype FetchTarget =
    | Target(guildId: string, what: Option<string>, recipient: Communicator)
    | Unresolved(error: string)

  /**
   * The kind a target holds is one `normalizeWhat` can produce: a canonical
   * kind or none (`undefined`).
   */
  predicate Normalised(t: FetchTarget) {
    t.Unresolved? || t.what.None? || IsKind(t.what.value)
  }

  /**
   * The constructor: with no recipient only `error` is set; otherwise the
   * guild, the normalised kind and the recipient are.
   */
  function New(guildId: string, what: string, recipient: Option<Communicator>): (t: FetchTarget)
    ensures recipient.None? <==> t.Unresolved?
    ensures t.Unresolved? ==> t.error == NO_RECIPIENT
    ensures t.Target? ==> t.guildId == guildId && t.recipient == recipient.value
    ensures t.Target? ==> t.what == NormalizeWhat(what)
  {
    match recipient
    case None => Unresolved(NO_RECIPIENT)
    case Some(c) => Target(guildId, NormalizeWhat(what), c)
  }

  /** `id`: the recipient's id; throws when there is no recipient or it wraps nothing. */
  function TargetId(t: FetchTarget): (r: Result<string>)
    ensures r.Ok? <==> t.Target? && t.recipient.entity.Some?
    ensures r.Ok? ==> r.value == t.recipient.entity.value.id
  {
    match t
    case Unresolved(_) => Err(ReadingUndefined("id"))
    case Target(_, _, c) => Id(c)
  }

  /** A kind interpolated into a template: `undefined` when normalisation found none. */
  function WhatText(what: Option<string>): string
  {
    match what
    case None => "undefined"
    case Some(w) => w
  }

  /** `inWords`: "<what> <for|in> <mention>". */
  function InWords(t: FetchTarget): (r: Result<string>)
    requires t.Target?
    ensures r.Ok? <==> t.recipient.entity.Some?
    ensures r.Ok? ==>
      r.value == WhatText(t.what) + " " + Preposition(t.recipient).value + " " + t.recipient.entity.value.mention
  {
    match t.recipient.entity
    case None => Err(ReadingUndefined("type"))
    case Some(e) => Ok(WhatText(t.what) + " " + Preposition(t.recipient).value + " " + e.mention)
  }

  /** `forLog`: "<what> to #<name>". */
  function ForLog(t: FetchTarget): (r: Result<string>)
    requires t.Target?
    ensures r.Ok? <==> t.recipient.entity.Some?
  {
    match Name(t.recipient)
    case Err(e) => Err(e)
    case Ok(n) => Ok(WhatText(t.what) + " to #" + n)
  }

  /** The four captures of the job-name pattern `^(\w+)@(\d+)#([uc])(\d+)`. */
  datatype Parts = Parts(what: string, guildId: string, code: char, id: string)

  predicate WellFormed(p: Parts) {
    |p.what| > 0 && AllWordChars(p.what) &&
    |p.guildId| > 0 && AllDigits(p.guildId) &&
    (p.code == 'u' || p.code == 'c') &&
    |p.id| > 0 && AllDigits(p.id)
  }

  function Render(p: Parts): string {
    p.what + "@" + p.guildId + "#" + [p.code] + p.id
  }

  /** `toString`: the job name; throws when the recipient's getters do. */
  function ToString(t: FetchTarget): (r: Result<string>)
    ensures r.Ok? <==> t.Target? && t.recipient.entity.Some?
    ensures r.Ok? ==> r.value == Render(Parts(WhatText(t.what), t.guildId, Code(t.recipient).value, TargetId(t).value))
  {
    match t
    case Unresolved(_) => Err(ReadingUndefined("code"))
    case Target(g, w, c) =>
      match c.entity
      case None => Err(ReadingUndefined("type"))
      case Some(e) => Ok(WhatText(w) + "@" + g + "#" + [Code(c).value] + e.id)
  }

  /** Length of the longest prefix of `s` made of word characters. */
  function WordRun(s: string): (n: nat)
    ensures n <= |s| && AllWordChars(s[..n])
    ensures n < |s| ==> !IsWordChar(s[n])
  {
    if s == [] || !IsWordChar(s[0]) then 0
    else
      var n := 1 + WordRun(s[1..]);
      assert s[..n] == [s[0]] + s[1..][..n - 1];
      n
  }

  /** Length of the longest prefix of `s` made of digits. */
  function DigitRun(s: string): (n: nat)
    ensures n <= |s| && AllDigits(s[..n])
    ensures n < |s| ==> !IsDigit(s[n])
  {
    if s == [] || !IsDigit(s[0]) then 0
    else
      var n := 1 + DigitRun(s[1..]);
      assert s[..n] == [s[0]] + s[1..][..n - 1];
      n
  }

  /** The anchored match of `^(\w+)@(\d+)#([uc])(\d+)`; None where `match` gives null. */
  function Parse(s: string): (r: Option<Parts>)
    ensures r.Some? ==> WellFormed(r.value) && StartsWith(s, Render(r.value))
    ensures r.Some? && |Render(r.value)| < |s| ==> !IsDigit(s[|Render(r.value)|])
  {
    var w := WordRun(s);
    if w == 0 || w >= |s| || s[w] != '@' then None
    else
      var r := ParseGuild(s[..w], s[w + 1..]);
      if r.None? then None
      else
        var tail := r.value.guildId + "#" + [r.value.code] + r.value.id;
        assert Render(r.value) == s[..w] + "@" + tail;
        assert s == (s[..w] + "@") + s[w + 1..];
        PrefixStarts(s[..w] + "@", s[w + 1..], tail);
        r
  }

  /** A prefix of the rest stays a prefix once both get the same head. */
  lemma PrefixStarts(head: string, t: string, x: string)
    requires StartsWith(t, x)
    ensures StartsWith(head + t, head + x)
    ensures |head + x| < |head + t| ==> (head + t)[|head + x|] == t[|x|]
  {
    assert (head + t)[..|head + x|] == head + t[..|x|];
  }

  /** The match after `<what>@`. */
  function ParseGuild(what: string, t: string): (r: Option<Parts>)
    requires |what| > 0 && AllWordChars(what)
    ensures r.Some? ==> WellFormed(r.value) && r.value.what == what
    ensures r.Some? ==> StartsWith(t, r.value.guildId + "#" + [r.value.code] + r.value.id)
    ensures r.Some? && |r.value.guildId + "#" + [r.value.code] + r.value.id| < |t| ==>
      !IsDigit(t[|r.value.guildId + "#" + [r.value.code] + r.value.id|])
  {
    var g := DigitRun(t);
    if g == 0 || g >= |t| || t[g] != '#' then None
    else
      var r := ParseRecipient(what, t[..g], t[g + 1..]);
      assert t == t[..g] + "#" + t[g + 1..];
      r
  }

  /** The match after `<what>@<guild>#`. */
  function ParseRecipient(what: string, guildId: string, t: string): (r: Option<Parts>)
    requires |what| > 0 && AllWordChars(what)
    requires |guildId| > 0 && AllDigits(guildId)
    ensures r.Some? ==> WellFormed(r.value) && r.value.what == what && r.value.guildId == guildId
    ensures r.Some? ==> StartsWith(t, [r.value.code] + r.value.id)
    ensures r.Some? && 1 + |r.value.id| < |t| ==> !IsDigit(t[1 + |r.value.id|])
  {
    if t == [] || (t[0] != 'u' && t[0] != 'c') then None
    else
      var d := DigitRun(t[1..]);
      if d == 0 then None
      else
        assert t[..1 + d] == [t[0]] + t[1..][..d];
        Some(Parts(what, guildId, t[0], t[1..][..d]))
  }

  lemma {:induction false} WordRunOf(a: string, b: string)
    requires AllWordChars(a)
    requires b == [] || !IsWordChar(b[0])
    ensures WordRun(a + b) == |a|
  {
    if a != [] {
      assert (a + b)[1..] == a[1..] + b;
      WordRunOf(a[1..], b);
    }
  }

  lemma {:induction false} DigitRunOf(a: string, b: string)
    requires AllDigits(a)
    requires b == [] || !IsDigit(b[0])
    ensures DigitRun(a + b) == |a|
  {
    if a != [] {
      assert (a + b)[1..] == a[1..] + b;
      DigitRunOf(a[1..], b);
    }
  }

  /**
   * Every string that begins with a well-formed job name, followed by
   * anything but a further digit, parses to exactly that name's captures:
   * trailing text is ignored.
   */
  lemma ParseRender(p: Parts, rest: string)
    requires WellFormed(p)
    requires rest == [] || !IsDigit(rest[0])
    ensures Parse(Render(p) + rest) == Some(p)
  {
    var t1 := p.guildId + "#" + [p.code] + p.id + rest;
    ParseGuildRender(p, rest);
    var s := p.what + ("@" + t1);
    WordRunOf(p.what, "@" + t1);
    assert s[..|p.what|] == p.what;
    assert s[|p.what| + 1..] == t1;
    assert Parse(s) == Some(p);
    RenderSplit(p, rest);
  }

  lemma RenderSplit(p: Parts, rest: string)
    ensures Render(p) + rest == p.what + ("@" + (p.guildId + "#" + [p.code] + p.id + rest))
  {
  }

  lemma ParseGuildRender(p: Parts, rest: string)
    requires WellFormed(p)
    requires rest == [] || !IsDigit(rest[0])
    ensures ParseGuild(p.what, p.guildId + "#" + [p.code] + p.id + rest) == Some(p)
  {
    var t2 := [p.code] + p.id + rest;
    assert p.guildId + "#" + [p.code] + p.id + rest == p.guildId + ("#" + t2);
    ParseGuildSplit(p.what, p.guildId, t2);
    ParseRecipientRender(p, rest);
  }

  /** A digit run followed by `#` is taken whole as the guild id, and the recipient is parsed from what follows. */
  lemma ParseGuildSplit(what: string, guildId: string, t2: string)
    requires |what| > 0 && AllWordChars(what)
    requires |guildId| > 0 && AllDigits(guildId)
    ensures ParseGuild(what, guildId + ("#" + t2)) == ParseRecipient(what, guildId, t2)
  {
    var t1 := guildId + ("#" + t2);
    var g := |guildId|;
    DigitRunOf(guildId, "#" + t2);
    assert t1[g] == '#' && t1[..g] == guildId && t1[g + 1..] == t2;
  }


  lemma ParseRecipientRender(p: Parts, rest: string)
    requires WellFormed(p)
    requires rest == [] || !IsDigit(rest[0])
    ensures ParseRecipient(p.what, p.guildId, [p.code] + p.id + rest) == Some(p)
  {
    var t2 := [p.code] + p.id + rest;
    assert t2[1..] == p.id + rest;
    DigitRunOf(p.id, rest);
    assert (p.id + rest)[..|p.id|] == p.id;
  }

  /** `fromString`: throws unless the name matches; otherwise resolves the recipient in the cache. */
  function FromString(name: string, cache: Cache): (r: Result<FetchTarget>)
    ensures r.Ok? <==> Parse(name).Some?
    ensures r.Ok? ==> r.value.Target?
    ensures r.Ok? ==>
      var p := Parse(name).value;
      && r.value.guildId == p.guildId
      && r.value.what == NormalizeWhat(p.what)
      && r.value.recipient == Communicator(
           if p.code == 'u' then (if p.id in cache.users then Some(cache.users[p.id]) else None)
           else (if p.id in cache.channels then Some(cache.channels[p.id]) else None))
  {
    match Parse(name)
    case None => Err(NO_MATCH)
    case Some(p) => Ok(New(p.guildId, p.what, ById(Some(p.id), p.code == 'u', cache)))
  }

  /** The cache holds the recipient under its id, in the table that its kind selects. */
  predicate Cached(e: Entity, cache: Cache) {
    if EntityIsUser(e) then e.id in cache.users && cache.users[e.id] == e
    else e.id in cache.channels && cache.channels[e.id] == e
  }

  /**
   * Serialising a target and parsing the name back yields the same target,
   * provided its kind is canonical, its guild id and recipient id are digit
   * strings and the cache still holds the recipient.
   */
  lemma {:induction false} ToStringFromString(t: FetchTarget, cache: Cache)
    requires t.Target? && t.what.Some? && IsKind(t.what.value)
    requires |t.guildId| > 0 && AllDigits(t.guildId)
    requires t.recipient.entity.Some?
    requires |t.recipient.entity.value.id| > 0 && AllDigits(t.recipient.entity.value.id)
    requires Cached(t.recipient.entity.value, cache)
    ensures ToString(t).Ok?
    ensures FromString(ToString(t).value, cache) == Ok(t)
  {
    var e := t.recipient.entity.value;
    var p := Parts(t.what.value, t.guildId, Code(t.recipient).value, e.id);
    KindsAreWords(t.what.value);
    ParseRender(p, "");
    assert Render(p) + "" == Render(p);
    NormalizeWhatIdempotent(t.what.value);
  }

  /** The regex captures the part of a `fromMatches` match that the core reads. */
  datatype Matches = Matches(what: string, channelId: Option<string>, me: Option<string>, userId: Option<string>)

  /** The message the command came from: its guild, the cache, channel, author and admin flag. */
  datatype Context = Context(guildId: string, cache: Cache, channel: Entity, author: Entity, fromAdmin: bool)

  /**
   * The recipient `fromMatches` picks: a mentioned user, else the author if
   * the command said "me", else a mentioned channel, else the current channel.
   */
  function ChooseRecipient(m: Matches, ctx: Context): (c: Communicator)
    ensures ById(m.userId, true, ctx.cache).Some? ==> c == ById(m.userId, true, ctx.cache).value
    ensures ById(m.userId, true, ctx.cache).None? && m.me == Some("me") ==> c == Communicator(Some(ctx.author))
    ensures ById(m.userId, true, ctx.cache).None? && m.me != Some("me") ==>
      c == (if ById(m.channelId, false, ctx.cache).Some? then ById(m.channelId, false, ctx.cache).value
            else Communicator(Some(ctx.channel)))
  {
    var place := match ById(m.channelId, false, ctx.cache)
                 case Some(c) => c
                 case None => Communicator(Some(ctx.channel));
    match ById(m.userId, true, ctx.cache)
    case Some(who) => who
    case None => if m.me == Some("me") then Communicator(Some(ctx.author)) else place
  }

  /** The rule of `fromMatches`: the recipient is the author or the current channel, or the author is an admin. */
  predicate Authorised(id: string, ctx: Context) {
    id == ctx.author.id || id == ctx.channel.id || ctx.fromAdmin
  }

  /**
   * `fromMatches`: the target for the chosen recipient when the rule allows
   * it, null otherwise; reading the id of a recipient that is not cached throws.
   */
  function FromMatches(m: Matches, ctx: Context): (r: Result<Option<FetchTarget>>)
    ensures r.Ok? <==> ChooseRecipient(m, ctx).entity.Some?
    ensures r.Ok? ==> (r.value.Some? <==> Authorised(ChooseRecipient(m, ctx).entity.value.id, ctx))
    ensures r.Ok? && r.value.Some? ==>
      r.value.value == Target(ctx.guildId, NormalizeWhat(m.what), ChooseRecipient(m, ctx))
  {
    var target := New(ctx.guildId, m.what, Some(ChooseRecipient(m, ctx)));
    match TargetId(target)
    case Err(e) => Err(e)
    case Ok(id) => Ok(if Authorised(id, ctx) then Some(target) else None)
  }
}
