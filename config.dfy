/** The harvester's configuration: the relay list with each relay's pagination
    cursor, the shared filter, and the path of the file the configuration was
    loaded from. Loading and the cursor checkpoint (UpdateUntil) are modelled;
    the YAML syntax, the file system and the yq path expression are not, so
    they appear here as parameters or as abstract edits. */
module Config {
  import opened Wrappers

  /** One relay descriptor: its URL, its cursor as a formatted calendar time
      ("January 2, 2006 15:04:05" layout), and its re-poll interval in seconds. */
  datatype RelayConfig = RelayConfig(url: string, until: string, interval: int)

  /** The shared subscription filter; the harvester only reads it. */
  datatype Filter = Filter(kinds: seq<int>, authors: seq<string>, limit: int)

  /** What unmarshalling the configuration file yields. The loaded path is not
      part of the file: it is recorded by Load. */
  datatype Document = Document(relays: seq<RelayConfig>, filter: Filter)

  datatype LoadError =
    | NotFound               // the file could not be read
    | Malformed(reason: string)  // the YAML decoder refused it

  /** One persisted partial rewrite: set `.relays[index].until` to `until` in
      the file at `path`. */
  datatype Edit = Edit(path: string, index: nat, until: string)

  /** The relay list after the in-memory part of UpdateUntil: every entry whose
      URL is `url` carries the new cursor text, every other entry is as it was. */
  function Retimed(rs: seq<RelayConfig>, url: string, until: string): seq<RelayConfig>
  {
    seq(|rs|, i requires 0 <= i < |rs| => if rs[i].url == url then rs[i].(until := until) else rs[i])
  }

  /** The file rewrites UpdateUntil performs, in list order: one for each entry
      whose URL matches, except where reading the file failed at that entry
      (the indices in `unreadable`). */
  function Edits(rs: seq<RelayConfig>, path: string, url: string, until: string, unreadable: set<int>): seq<Edit>
    decreases |rs|
  {
    if rs == [] then []
    else
      var i := |rs| - 1;
      Edits(rs[..i], path, url, until, unreadable)
        + (if rs[i].url == url && i !in unreadable then [Edit(path, i, until)] else [])
  }

  /** The cursor column of a relay list, as the file stores it. */
  function Untils(rs: seq<RelayConfig>): (r: seq<string>)
    ensures |r| == |rs|
  {
    seq(|rs|, i requires 0 <= i < |rs| => rs[i].until)
  }

  /** The effect of a sequence of edits on the cursor column of the file. An
      edit whose index lies beyond the list is not modelled and left out. */
  function ApplyEdits(column: seq<string>, edits: seq<Edit>): (r: seq<string>)
    ensures |r| == |column|
    decreases |edits|
  {
    if edits == [] then column
    else
      var e := edits[0];
      ApplyEdits(if e.index < |column| then column[e.index := e.until] else column, edits[1..])
  }

  /** The in-memory configuration. `relays` is the slice's backing array: it is
      shared by every copy of the configuration, so a method called on a copy
      can still change the entries. */
  class AppConfig {
    var relays: array<RelayConfig>
    var filter: Filter
    var path: string

    constructor (doc: Document, path: string)
      ensures fresh(relays)
      ensures relays[..] == doc.relays && filter == doc.filter && this.path == path
    {
      relays := new RelayConfig[|doc.relays|](i requires 0 <= i < |doc.relays| => doc.relays[i]);
      filter := doc.filter;
      this.path := path;
    }

    /** Checkpoints the cursor `until` (Unix seconds) of relay `url`: every
        entry with that URL gets the formatted time in memory, and for each such
        entry the file at `path` is read and its `.relays[i].until` rewritten.
        A failed read (index in `unreadable`) skips that entry's rewrite only.
        The receiver is a copy in the source, so nothing but the shared array
        changes. */
    method UpdateUntil(url: string, until: int, format: int -> string, unreadable: set<int>)
      returns (edits: seq<Edit>)
      modifies relays
      ensures relays[..] == Retimed(old(relays[..]), url, format(until))
      ensures edits == Edits(old(relays[..]), path, url, format(until), unreadable)
    {
      ghost var rs := relays[..];
      var i := 0;
      edits := [];
      while i < relays.Length
        invariant 0 <= i <= relays.Length
        invariant forall k :: 0 <= k < i ==>
            relays[k] == if rs[k].url == url then rs[k].(until := format(until)) else rs[k]
        invariant forall k :: i <= k < relays.Length ==> relays[k] == rs[k]
        invariant edits == Edits(rs[..i], path, url, format(until), unreadable)
      {
        assert rs[..i + 1][..i] == rs[..i];
        if relays[i].url == url {
          var formatted := format(until);
          relays[i] := relays[i].(until := formatted);
          if i !in unreadable {
            edits := edits + [Edit(path, i, formatted)];
          }
        }
        i := i + 1;
      }
      assert rs[..i] == rs;
    }
  }

  /** Reads and decodes the configuration file. `file` is the result of reading
      `path` (None when the read fails); `unmarshal` is the YAML decoder. */
  method Load(path: string, file: Option<string>, unmarshal: string -> Result<Document, string>)
    returns (r: Result<AppConfig, LoadError>)
    ensures file.None? ==> r == Err(NotFound)
    ensures file.Some? && unmarshal(file.value).Err? ==> r == Err(Malformed(unmarshal(file.value).error))
    ensures file.Some? && unmarshal(file.value).Ok? ==>
      r.Ok? && fresh(r.value) && fresh(r.value.relays) && r.value.path == path
      && r.value.relays[..] == unmarshal(file.value).value.relays
      && r.value.filter == unmarshal(file.value).value.filter
  {
    if file.None? {
      return Err(NotFound);
    }
    var decoded := unmarshal(file.value);
    if decoded.Err? {
      return Err(Malformed(decoded.error));
    }
    var app := new AppConfig(decoded.value, path);
    return Ok(app);
  }

  /** Only entries with the given URL change, only in their cursor, every one
      of them takes the new value, and the list keeps its length. */
  lemma RetimedChangesOnlyMatches(rs: seq<RelayConfig>, url: string, until: string)
    ensures |Retimed(rs, url, until)| == |rs|
    ensures forall i :: 0 <= i < |rs| ==>
      Retimed(rs, url, until)[i].url == rs[i].url && Retimed(rs, url, until)[i].interval == rs[i].interval
    ensures forall i :: 0 <= i < |rs| && rs[i].url == url ==> Retimed(rs, url, until)[i].until == until
    ensures forall i :: 0 <= i < |rs| && rs[i].url != url ==> Retimed(rs, url, until)[i] == rs[i]
  {
  }

  /** A later checkpoint of the same relay overwrites an earlier one entirely. */
  lemma RetimedOverwrites(rs: seq<RelayConfig>, url: string, a: string, b: string)
    ensures Retimed(Retimed(rs, url, a), url, b) == Retimed(rs, url, b)
  {
  }

  /** Every edit addresses, by its list index, an entry whose URL matches, and
      writes the new cursor to the loaded path; the indices strictly increase. */
  lemma {:induction false} EditsTargetMatches(rs: seq<RelayConfig>, path: string, url: string, until: string, unreadable: set<int>)
    ensures forall e <- Edits(rs, path, url, until, unreadable) ::
      e.index < |rs| && rs[e.index].url == url && e.index !in unreadable && e.path == path && e.until == until
    ensures forall j, k :: 0 <= j < k < |Edits(rs, path, url, until, unreadable)| ==>
      Edits(rs, path, url, until, unreadable)[j].index < Edits(rs, path, url, until, unreadable)[k].index
    decreases |rs|
  {
    if rs != [] {
      var i := |rs| - 1;
      EditsTargetMatches(rs[..i], path, url, until, unreadable);
      forall e <- Edits(rs[..i], path, url, until, unreadable)
        ensures e.index < i && rs[e.index].url == url
      {
        assert rs[..i][e.index] == rs[e.index];
      }
    }
  }

  /** No matching entry whose read succeeds is skipped: there is no early exit,
      so duplicate URLs are all rewritten. */
  lemma {:induction false} EditsCoverMatches(rs: seq<RelayConfig>, path: string, url: string, until: string, unreadable: set<int>)
    ensures forall i :: 0 <= i < |rs| && rs[i].url == url && i !in unreadable ==>
      Edit(path, i, until) in Edits(rs, path, url, until, unreadable)
    decreases |rs|
  {
    if rs != [] {
      var n := |rs| - 1;
      EditsCoverMatches(rs[..n], path, url, until, unreadable);
      forall i | 0 <= i < n && rs[i].url == url && i !in unreadable
        ensures Edit(path, i, until) in Edits(rs, path, url, until, unreadable)
      {
        assert rs[..n][i] == rs[i];
      }
    }
  }

  /** The edits of a checkpoint depend only on the entries' URLs, so they are
      the same whatever cursors the list carried before. */
  lemma {:induction false} EditsFollowUrls(a: seq<RelayConfig>, b: seq<RelayConfig>, path: string, url: string,
                                           until: string, unreadable: set<int>)
    requires |a| == |b| && forall i :: 0 <= i < |a| ==> a[i].url == b[i].url
    ensures Edits(a, path, url, until, unreadable) == Edits(b, path, url, until, unreadable)
    decreases |a|
  {
    if a != [] {
      var n := |a| - 1;
      EditsFollowUrls(a[..n], b[..n], path, url, until, unreadable);
    }
  }

  lemma {:induction false} ApplyEditsAppend(column: seq<string>, a: seq<Edit>, b: seq<Edit>)
    ensures ApplyEdits(column, a + b) == ApplyEdits(ApplyEdits(column, a), b)
    decreases |a|
  {
    if a != [] {
      var e := a[0];
      assert (a + b)[1..] == a[1..] + b;
      ApplyEditsAppend(if e.index < |column| then column[e.index := e.until] else column, a[1..], b);
    } else {
      assert a + b == b;
    }
  }

  /** When no read fails, replaying the edits of one checkpoint on a file whose
      cursor column matched memory leaves the file matching memory again on the
      first `n` entries, and untouched beyond them. */
  lemma {:induction false} EditsReplayPrefix(rs: seq<RelayConfig>, n: nat, path: string, url: string, until: string)
    requires n <= |rs|
    ensures forall k :: 0 <= k < |rs| ==>
      ApplyEdits(Untils(rs), Edits(rs[..n], path, url, until, {}))[k]
        == if k < n && rs[k].url == url then until else rs[k].until
    decreases n
  {
    if n > 0 {
      var i := n - 1;
      assert rs[..n][..i] == rs[..i];
      EditsReplayPrefix(rs, i, path, url, until);
      var tail := if rs[i].url == url then [Edit(path, i, until)] else [];
      assert Edits(rs[..n], path, url, until, {}) == Edits(rs[..i], path, url, until, {}) + tail;
      ApplyEditsAppend(Untils(rs), Edits(rs[..i], path, url, until, {}), tail);
    }
  }

  /** The persisted cursors agree with memory after a checkpoint whose file
      reads all succeed, provided they agreed before. */
  lemma PersistedMatchesMemory(rs: seq<RelayConfig>, path: string, url: string, until: string)
    ensures ApplyEdits(Untils(rs), Edits(rs, path, url, until, {})) == Untils(Retimed(rs, url, until))
  {
    EditsReplayPrefix(rs, |rs|, path, url, until);
    assert rs[..|rs|] == rs;
  }
}
