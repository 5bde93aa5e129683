/**
 * The listener registry: for each guild, the ids of the users who are told
 * when a background fetch fails, kept in the order they were added and
 * written to one file per guild in the listener directory.
 */
module Listeners {
  import opened Wrappers
  import opened Text
  import opened Communicator
  import opened Files

  /** The listener ids of each guild. */
  type Registry = map<string, seq<string>>

  /** A guild's list, empty when the guild has none yet. */
  function ListOf(ls: Registry, g: string): seq<string> {
    if g in ls then ls[g] else []
  }

  /**
   * `forGuild` on the registry: the guild gets an empty list on first access
   * and keeps the list it has afterwards; no other guild changes.
   */
  function Touch(ls: Registry, g: string): (r: Registry)
    ensures g in r && r[g] == ListOf(ls, g)
    ensures r.Keys == ls.Keys + {g}
    ensures forall g' | g' != g && g' in ls :: r[g'] == ls[g']
  {
    if g in ls then ls else ls[g := []]
  }

  /** Touching a guild twice is touching it once. */
  lemma TouchIdempotent(ls: Registry, g: string)
    ensures Touch(Touch(ls, g), g) == Touch(ls, g)
  {
  }

  /** No id occurs twice. */
  predicate NoDup(l: seq<string>) {
    forall i, j :: 0 <= i < j < |l| ==> l[i] != l[j]
  }

  /** Every guild's list is free of duplicates. */
  predicate AllNoDup(ls: Registry) {
    forall g | g in ls :: NoDup(ls[g])
  }

  /** `includes` then `push`: the id is appended unless it is already in the list. */
  function Include(l: seq<string>, id: string): (r: seq<string>)
    ensures forall x :: x in r <==> x in l || x == id
    ensures id !in l ==> r == l + [id]
    ensures id in l ==> r == l
  {
    if id in l then l else l + [id]
  }

  /** `add` never creates a duplicate. */
  lemma IncludeNoDup(l: seq<string>, id: string)
    requires NoDup(l)
    ensures NoDup(Include(l, id))
  {
    if id !in l {
      var r := l + [id];
      forall i, j | 0 <= i < j < |r| ensures r[i] != r[j] {
        if j == |l| {
          assert r[i] == l[i];
        }
      }
    }
  }

  /** Adding keeps every guild's list free of duplicates. */
  lemma AddKeepsNoDup(ls: Registry, g: string, id: string)
    requires AllNoDup(ls)
    ensures AllNoDup(ls[g := Include(ListOf(ls, g), id)])
  {
    IncludeNoDup(ListOf(ls, g), id);
  }

  /** `indexOf`: the first position of the id, or -1 when it is absent. */
  function IndexOf(l: seq<string>, id: string): (i: int)
    ensures i == -1 <==> id !in l
    ensures i != -1 ==> 0 <= i < |l| && l[i] == id && id !in l[..i]
    decreases |l|
  {
    if l == [] then -1
    else if l[0] == id then 0
    else
      var k := IndexOf(l[1..], id);
      if k == -1 then
        assert l == [l[0]] + l[1..];
        -1
      else
        assert l[..k + 1] == [l[0]] + l[1..][..k];
        k + 1
  }

  /** `splice(i, 1)`: the list without its entry at `i`, the others in order. */
  function RemoveAt(l: seq<string>, i: nat): (r: seq<string>)
    requires i < |l|
    ensures |r| == |l| - 1
    ensures forall j :: 0 <= j < |r| ==> r[j] == l[if j < i then j else j + 1]
    ensures multiset(r) + multiset{l[i]} == multiset(l)
  {
    assert l == l[..i] + [l[i]] + l[i + 1..];
    l[..i] + l[i + 1..]
  }

  /** `remove` as intended: the first occurrence of the id is spliced out; an absent id changes nothing. */
  function Exclude(l: seq<string>, id: string): (r: seq<string>)
    ensures id !in l ==> r == l
    ensures id in l ==> |r| == |l| - 1 && multiset(r) + multiset{id} == multiset(l)
  {
    var i := IndexOf(l, id);
    if i < 0 then l else RemoveAt(l, i)
  }

  /** In a list without duplicates, removing an id leaves exactly the other ids, still without duplicates. */
  lemma ExcludeNoDup(l: seq<string>, id: string)
    requires NoDup(l)
    ensures NoDup(Exclude(l, id))
    ensures forall x :: x in Exclude(l, id) <==> x in l && x != id
  {
    var i := IndexOf(l, id);
    if i >= 0 {
      var r := RemoveAt(l, i);
      forall a, b | 0 <= a < b < |r| ensures r[a] != r[b] {
        var a', b' := if a < i then a else a + 1, if b < i then b else b + 1;
        assert r[a] == l[a'] && r[b] == l[b'] && a' < b';
      }
      forall x ensures x in r <==> x in l && x != id {
        if x in r {
          var j :| 0 <= j < |r| && r[j] == x;
          var j' := if j < i then j else j + 1;
          assert l[j'] == x && j' != i;
        }
        if x in l && x != id {
          var j :| 0 <= j < |l| && l[j] == x;
          assert j != i;
          assert r[if j < i then j else j - 1] == x;
        }
      }
    }
  }

  /** Removing an id just added gives back the list as it was. */
  lemma {:induction false} ExcludeInclude(l: seq<string>, id: string)
    requires id !in l
    ensures Exclude(Include(l, id), id) == l
  {
    var r := l + [id];
    assert IndexOf(r, id) == |l| by {
      IndexOfAppend(l, id);
    }
    assert RemoveAt(r, |l|) == l;
  }

  /** The position of an id appended to a list that lacks it is the old length. */
  lemma {:induction false} IndexOfAppend(l: seq<string>, id: string)
    requires id !in l
    ensures IndexOf(l + [id], id) == |l|
    decreases |l|
  {
    if l != [] {
      assert (l + [id])[1..] == l[1..] + [id];
      IndexOfAppend(l[1..], id);
    }
  }

  const NO_TO_STRING := "TypeError: Cannot read properties of undefined (reading 'toString')"

  /**
   * The `map` in `list`: each listener's user in its string form; the first
   * id the user cache lacks throws.
   */
  function Mentions(l: seq<string>, cache: Cache): (r: Result<seq<string>>)
    ensures r.Ok? <==> forall i :: 0 <= i < |l| ==> l[i] in cache.users
    ensures r.Ok? ==> |r.value| == |l| && forall i :: 0 <= i < |l| ==> r.value[i] == cache.users[l[i]].mention
    ensures r.Err? ==> r.error == NO_TO_STRING
    decreases |l|
  {
    if l == [] then Ok([])
    else if l[0] !in cache.users then Err(NO_TO_STRING)
    else
      match Mentions(l[1..], cache)
      case Err(e) =>
        assert exists i :: 1 <= i < |l| && l[i] == l[1..][i - 1] && l[i] !in cache.users;
        Err(e)
      case Ok(rest) => Ok([cache.users[l[0]].mention] + rest)
  }

  /** `list`: the listeners' string forms, one per line; it throws exactly when some listener is not cached. */
  function ListText(l: seq<string>, cache: Cache): (r: Result<string>)
    ensures r.Ok? <==> forall i :: 0 <= i < |l| ==> l[i] in cache.users
    ensures r.Err? ==> r.error == NO_TO_STRING
    ensures |l| == 1 && l[0] in cache.users ==> r == Ok(cache.users[l[0]].mention)
    ensures l == [] ==> r == Ok("")
  {
    match Mentions(l, cache)
    case Err(e) => Err(e)
    case Ok(ms) => Ok(Join(ms, "\n"))
  }

  const MSG_UNDEFINED := "ReferenceError: msg is not defined"

  /** What each listener is sent: `data`, as intended, or `msg`, which no enclosing scope binds. */
  datatype Argument = Data | UnboundMsg

  /**
   * One call of the `forEach` callback: the callee `users.get(l).send` is
   * looked up first, which throws when the id is not cached, and only then
   * is the argument evaluated.
   */
  function SendOne(id: string, arg: Argument, data: string, cache: Cache): (r: Result<Delivery>)
    ensures r.Ok? <==> id in cache.users && arg.Data?
    ensures id !in cache.users ==> r == Err(NO_SEND)
    ensures id in cache.users && arg.UnboundMsg? ==> r == Err(MSG_UNDEFINED)
    ensures r.Ok? ==> r.value == Delivery(cache.users[id], data)
  {
    if id !in cache.users then Err(NO_SEND)
    else if arg.UnboundMsg? then Err(MSG_UNDEFINED)
    else Ok(Delivery(cache.users[id], data))
  }

  /**
   * `forEach` over the list: the callback runs on each id in order; the
   * deliveries made so far stand, and the first exception ends the loop.
   */
  function ForEachSend(l: seq<string>, arg: Argument, data: string, cache: Cache): (r: (seq<Delivery>, Option<string>))
    ensures |r.0| <= |l|
    ensures forall i :: 0 <= i < |r.0| ==> SendOne(l[i], arg, data, cache) == Ok(r.0[i])
    ensures r.1.None? <==> forall i :: 0 <= i < |l| ==> SendOne(l[i], arg, data, cache).Ok?
    ensures r.1.None? ==> |r.0| == |l|
    ensures r.1.Some? ==> |r.0| < |l| && SendOne(l[|r.0|], arg, data, cache) == Err(r.1.value)
    decreases |l|
  {
    if l == [] then ([], None)
    else
      match SendOne(l[0], arg, data, cache)
      case Err(e) => ([], Some(e))
      case Ok(dl) =>
        var (rest, thrown) := ForEachSend(l[1..], arg, data, cache);
        assert forall i :: 1 <= i < |l| ==> l[i] == l[1..][i - 1];
        ([dl] + rest, thrown)
  }

  /**
   * `send` as written: every listener is sent `msg`. The first callback
   * throws, because the id is not cached or because `msg` names no
   * variable, so an empty list is the only one that does not throw, and
   * nothing is ever delivered.
   */
  function SendAsWritten(l: seq<string>, data: string, cache: Cache): (r: (seq<Delivery>, Option<string>))
    ensures r.0 == []
    ensures r.1.None? <==> l == []
    ensures l != [] ==> r.1 == Some(if l[0] in cache.users then MSG_UNDEFINED else NO_SEND)
  {
    ForEachSend(l, UnboundMsg, data, cache)
  }

  /**
   * `send` with `data` in place of `msg`: each listener in order is handed
   * the data; the first id the user cache lacks throws and ends the loop.
   */
  function Fanout(l: seq<string>, data: string, cache: Cache): (r: (seq<Delivery>, Option<string>))
    ensures |r.0| <= |l|
    ensures forall i :: 0 <= i < |r.0| ==> l[i] in cache.users && r.0[i] == Delivery(cache.users[l[i]], data)
    ensures r.1.None? <==> forall i :: 0 <= i < |l| ==> l[i] in cache.users
    ensures r.1.None? ==> |r.0| == |l|
    ensures r.1.Some? ==> r.1.value == NO_SEND && |r.0| < |l| && l[|r.0|] !in cache.users
  {
    ForEachSend(l, Data, data, cache)
  }

  /**
   * As written, a guild whose listeners are all cached hears nothing: the
   * send throws on the first listener, where the corrected loop delivers the
   * message to every one of them, in order.
   */
  lemma SendLosesNotice(l: seq<string>, data: string, cache: Cache)
    requires l != [] && forall i :: 0 <= i < |l| ==> l[i] in cache.users
    ensures SendAsWritten(l, data, cache) == ([], Some(MSG_UNDEFINED))
    ensures Fanout(l, data, cache).1.None? && |Fanout(l, data, cache).0| == |l|
  {
  }

  /** The `forEach` loop itself: the deliveries and the exception are exactly those of `ForEachSend`. */
  method SendEach(l: seq<string>, arg: Argument, data: string, cache: Cache) returns (sent: seq<Delivery>, thrown: Option<string>)
    ensures (sent, thrown) == ForEachSend(l, arg, data, cache)
  {
    ghost var r := ForEachSend(l, arg, data, cache);
    sent, thrown := [], None;
    var k := 0;
    while k < |l|
      invariant 0 <= k <= |l| && |sent| == k
      invariant forall i :: 0 <= i < k ==> SendOne(l[i], arg, data, cache) == Ok(sent[i])
    {
      var one := SendOne(l[k], arg, data, cache);
      if one.Err? {
        thrown := Some(one.error);
        assert |r.0| == k;
        assert r.0 == sent;
        return;
      }
      sent := sent + [one.value];
      k := k + 1;
    }
    assert r.0 == sent;
  }

  /** `load` as the file callbacks run, in the order listed: each visible file that can be read replaces its guild's list. */
  function LoadAll(ls: Registry, dir: map<string, seq<string>>, names: seq<string>): (r: Registry)
    ensures ls.Keys <= r.Keys
    ensures names != [] && !Hidden(names[|names| - 1]) && names[|names| - 1] in dir ==>
      GuildOfFile(names[|names| - 1]) in r && r[GuildOfFile(names[|names| - 1])] == dir[names[|names| - 1]]
    decreases |names|
  {
    if names == [] then ls
    else
      var f := names[|names| - 1];
      var r := LoadAll(ls, dir, names[..|names| - 1]);
      if !Hidden(f) && f in dir then r[GuildOfFile(f) := dir[f]] else r
  }

  /** Loading files that belong to other guilds leaves a guild's list alone. */
  lemma {:induction false} LoadAllOthers(ls: Registry, dir: map<string, seq<string>>, names: seq<string>, g: string)
    requires forall i :: 0 <= i < |names| ==> GuildOfFile(names[i]) != g
    ensures ListOf(LoadAll(ls, dir, names), g) == ListOf(ls, g)
    decreases |names|
  {
    if names != [] {
      LoadAllOthers(ls, dir, names[..|names| - 1], g);
    }
  }

  /**
   * Saving the lists of distinct guilds and loading their files back gives
   * every one of those guilds the list it had.
   */
  lemma {:induction false} RestartRestoresListeners(ls: Registry, dir: map<string, seq<string>>, gs: seq<string>, i: nat)
    requires i < |gs|
    requires forall a, b :: 0 <= a < b < |gs| ==> gs[a] != gs[b]
    requires forall k :: 0 <= k < |gs| ==> !Hidden(StorageName(gs[k]))
    requires forall k :: 0 <= k < |gs| ==> StorageName(gs[k]) in dir && dir[StorageName(gs[k])] == ListOf(ls, gs[k])
    ensures ListOf(LoadAll(map[], dir, FileNames(gs)), gs[i]) == ListOf(ls, gs[i])
    decreases |gs|
  {
    var n := |gs| - 1;
    var names := FileNames(gs);
    assert names[n] == StorageName(gs[n]);
    GuildOfStorageName(gs[n]);
    LoadAllLast(map[], dir, names, gs[i]);
    if i < n {
      assert gs[i] != gs[n];
      assert names[..n] == FileNames(gs[..n]);
      RestartRestoresListeners(ls, dir, gs[..n], i);
    }
  }

  /** The last listed file, when visible and readable, decides its guild's list; every other guild's list is the one before it. */
  lemma LoadAllLast(ls: Registry, dir: map<string, seq<string>>, names: seq<string>, h: string)
    requires names != [] && !Hidden(names[|names| - 1]) && names[|names| - 1] in dir
    ensures ListOf(LoadAll(ls, dir, names), h) ==
      if h == GuildOfFile(names[|names| - 1]) then dir[names[|names| - 1]] else ListOf(LoadAll(ls, dir, names[..|names| - 1]), h)
  {
  }

  /**
   * The registry object: the per-guild lists and the listener directory it
   * writes to (file name to the stored array of ids).
   */
  class Listeners {
    var listeners: Registry
    var files: map<string, seq<string>>

    /** The constructor: an empty registry, then the directory's files loaded in the order listed. */
    constructor (dir: map<string, seq<string>>, names: seq<string>)
      ensures listeners == LoadAll(map[], dir, names)
      ensures files == dir
    {
      listeners := map[];
      files := dir;
      new;
      Load(names);
    }

    /** `forGuild`: the guild's list, created empty on first access. */
    method ForGuild(g: string) returns (l: seq<string>)
      modifies this
      ensures l == ListOf(old(listeners), g)
      ensures listeners == Touch(old(listeners), g)
      ensures files == old(files)
    {
      if g !in listeners {
        listeners := listeners[g := []];
      }
      l := listeners[g];
    }

    /** `save`: the guild's file now holds exactly its current list. */
    method Save(g: string)
      modifies this
      ensures listeners == Touch(old(listeners), g)
      ensures files == old(files)[StorageName(g) := ListOf(old(listeners), g)]
    {
      var l := ForGuild(g);
      files := files[g + ".json" := l];
    }

    /**
     * `add`: false, with the list unchanged, when the id is already there;
     * otherwise the id is appended and the guild's file rewritten.
     */
    method Add(g: string, id: string) returns (added: bool)
      modifies this
      ensures added <==> id !in ListOf(old(listeners), g)
      ensures listeners == old(listeners)[g := Include(ListOf(old(listeners), g), id)]
      ensures added ==> files == old(files)[StorageName(g) := ListOf(old(listeners), g) + [id]]
      ensures !added ==> files == old(files)
    {
      var l := ForGuild(g);
      if id in l {
        return false;
      }
      listeners := listeners[g := l + [id]];
      Save(g);
      added := true;
    }

    /**
     * `remove` as written: false when the id is absent; otherwise true, and
     * the file is rewritten, but `slice` returns a copy that is dropped, so
     * the list still holds the id.
     */
    method Remove(g: string, id: string) returns (removed: bool)
      modifies this
      ensures removed <==> id in ListOf(old(listeners), g)
      ensures listeners == Touch(old(listeners), g)
      ensures removed ==> files == old(files)[StorageName(g) := ListOf(old(listeners), g)]
      ensures !removed ==> files == old(files)
    {
      var l := ForGuild(g);
      var index := IndexOf(l, id);
      if index < 0 {
        return false;
      }
      Save(g);
      removed := true;
    }

    /** `remove` with `splice`: the first occurrence of the id is taken out of the list and the file. */
    method RemoveFixed(g: string, id: string) returns (removed: bool)
      modifies this
      ensures removed <==> id in ListOf(old(listeners), g)
      ensures listeners == old(listeners)[g := Exclude(ListOf(old(listeners), g), id)]
      ensures removed ==> files == old(files)[StorageName(g) := Exclude(ListOf(old(listeners), g), id)]
      ensures !removed ==> files == old(files)
    {
      var l := ForGuild(g);
      var index := IndexOf(l, id);
      if index < 0 {
        return false;
      }
      listeners := listeners[g := RemoveAt(l, index)];
      Save(g);
      removed := true;
    }

    /** `list`: the guild's listeners, one string form per line. */
    method List(g: string, cache: Cache) returns (r: Result<string>)
      modifies this
      ensures r == ListText(ListOf(old(listeners), g), cache)
      ensures listeners == Touch(old(listeners), g)
      ensures files == old(files)
    {
      var l := ForGuild(g);
      r := ListText(l, cache);
    }

    /** `send` as written: it throws on the first listener, before anything is delivered. */
    method Send(g: string, data: string, cache: Cache) returns (sent: seq<Delivery>, thrown: Option<string>)
      modifies this
      ensures (sent, thrown) == SendAsWritten(ListOf(old(listeners), g), data, cache)
      ensures sent == []
      ensures listeners == Touch(old(listeners), g)
      ensures files == old(files)
    {
      var l := ForGuild(g);
      sent, thrown := SendEach(l, UnboundMsg, data, cache);
    }

    /** `send` with `data`: each listener in order is handed the data until an uncached id throws. */
    method SendFixed(g: string, data: string, cache: Cache) returns (sent: seq<Delivery>, thrown: Option<string>)
      modifies this
      ensures (sent, thrown) == Fanout(ListOf(old(listeners), g), data, cache)
      ensures listeners == Touch(old(listeners), g)
      ensures files == old(files)
    {
      var l := ForGuild(g);
      sent, thrown := SendEach(l, Data, data, cache);
    }

    /** `load`: each visible file that can be read replaces the list of the guild its name gives. */
    method Load(names: seq<string>)
      modifies this
      ensures listeners == LoadAll(old(listeners), files, names)
      ensures files == old(files)
    {
      var k := 0;
      while k < |names|
        invariant 0 <= k <= |names|
        invariant files == old(files)
        invariant listeners == LoadAll(old(listeners), files, names[..k])
      {
        var f := names[k];
        assert names[..k + 1][..k] == names[..k];
        if !Hidden(f) && f in files {
          listeners := listeners[GuildOfFile(f) := files[f]];
        }
        k := k + 1;
      }
      assert names[..|names|] == names;
    }
  }

  /**
   * As written, `remove("1", "u7")` on the list ["u7"] reports success and
   * leaves ["u7"]; with `splice` the list becomes empty.
   */
  lemma RemoveKeepsId()
    ensures IndexOf(["u7"], "u7") == 0
    ensures ListOf(Touch(map["1" := ["u7"]], "1"), "1") == ["u7"]
    ensures Exclude(["u7"], "u7") == []
  {
  }
}
