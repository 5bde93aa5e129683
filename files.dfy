/**
 * The per-guild files of the schedule and listener directories: a guild's
 * file is named after its id, and a file is read back into the guild its name
 * gives once the last five characters are dropped.
 */
module Files {

  /** The file a guild's jobs or listeners are written to. */
  function StorageName(g: string): (f: string)
    ensures |f| == |g| + 5
  {
    g + ".json"
  }

  /** `f.slice(0, -5)`: the guild a file is read for, whatever its last five characters are. */
  function GuildOfFile(f: string): (g: string)
    ensures |f| >= 5 ==> g == f[..|f| - 5]
    ensures |f| < 5 ==> g == ""
  {
    if |f| >= 5 then f[..|f| - 5] else ""
  }

  /** Reading a written file gives back the guild it was written for. */
  lemma GuildOfStorageName(g: string)
    ensures GuildOfFile(StorageName(g)) == g
  {
    assert StorageName(g)[..|g|] == g;
  }

  /** Any five-character suffix is dropped, so a file `<guild>.back` is read into the same guild as `<guild>.json`. */
  lemma SuffixIsNotChecked()
    ensures GuildOfFile("42.back") == GuildOfFile(StorageName("42")) == "42"
  {
    GuildOfStorageName("42");
    assert "42.back"[..2] == "42";
  }

  /** The files written for the guilds `gs`, in that order. */
  function FileNames(gs: seq<string>): (names: seq<string>)
    ensures |names| == |gs| && forall i :: 0 <= i < |gs| ==> names[i] == StorageName(gs[i])
  {
    seq(|gs|, i requires 0 <= i < |gs| => StorageName(gs[i]))
  }

  /** A dot-file is skipped. */
  predicate Hidden(f: string) { |f| > 0 && f[0] == '.' }
}
