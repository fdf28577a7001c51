/** The CNI plugin's cache: one file per attached interface, written by ADD and
    consumed one per DEL. */
module CniCache {
  import opened Common

  datatype CacheEntry = CacheEntry(
    podUid: string, podName: string, namespace: string, networkProfile: string,
    interfaceName: string, containerId: string)

  /** A file either parses as an entry or does not. */
  datatype File = Entry(entry: CacheEntry) | Garbage

  type Files = map<string, File>

  // ---- names ------------------------------------------------------------------

  predicate AllowedChar(c: char) {
    'a' <= c <= 'z' || 'A' <= c <= 'Z' || '0' <= c <= '9' || c == '-' || c == '_'
  }

  predicate Clean(s: string) {
    s != "" && forall c :: c in s ==> AllowedChar(c)
  }

  function SanitizeChars(s: string): (r: string)
    ensures |r| == |s| && forall i :: 0 <= i < |s| ==> r[i] == if AllowedChar(s[i]) then s[i] else '_'
  {
    if s == "" then "" else SanitizeChars(s[..|s| - 1]) + [if AllowedChar(s[|s| - 1]) then s[|s| - 1] else '_']
  }

  function SanitizeComponent(s: string): string {
    if s == "" then "unknown" else SanitizeChars(s)
  }

  function TruncateId(id: string): string {
    if |id| > 12 then id[..12] else if id == "" then "unknown" else id
  }

  predicate MatchContainer(stored: string, id: string) {
    stored != "" && TruncateId(stored) == TruncateId(id)
  }

  /** The ids have the same first 12 characters, or are the same if one is shorter. */
  predicate AgreeOn12(a: string, b: string) {
    if |a| >= 12 && |b| >= 12 then a[..12] == b[..12] else a == b
  }

  /** Whether a stored container id stands for this container.  An empty id stands
      for none, and asking for one, which the CNI never does, finds "unknown". */
  predicate OfContainer(stored: string, id: string) {
    stored != "" && (AgreeOn12(stored, id) || (id == "" && stored == "unknown"))
  }

  lemma TruncateIdIsPrefix(id: string)
    ensures |id| > 12 ==> TruncateId(id) == id[..12]
    ensures 0 < |id| <= 12 ==> TruncateId(id) == id
    ensures id == "" ==> TruncateId(id) == "unknown"
  {
  }

  /** Comparing truncated ids tells containers apart by their first 12 characters. */
  lemma MatchContainerExactlyWhen(stored: string, id: string)
    ensures MatchContainer(stored, id) <==> OfContainer(stored, id)
  {
    TruncateIdIsPrefix(stored);
    TruncateIdIsPrefix(id);
    assert |stored| == 12 ==> stored[..12] == stored;
    assert |id| == 12 ==> id[..12] == id;
  }

  const SUFFIX := ".cache"

  function FileName(podUid: string, interfaceName: string, containerId: string): string {
    SanitizeComponent(podUid) + "_" + SanitizeComponent(interfaceName) + "_"
    + TruncateId(SanitizeComponent(containerId)) + SUFFIX
  }

  function NameOf(e: CacheEntry): string {
    FileName(e.podUid, e.interfaceName, e.containerId)
  }

  /** Sanitising gives a nonempty word over the allowed alphabet and leaves every
      such word alone; truncating twice is truncating once. */
  lemma SanitizeIsIdempotent(s: string)
    ensures Clean(SanitizeComponent(s))
    ensures Clean(s) ==> SanitizeComponent(s) == s
    ensures SanitizeComponent(SanitizeComponent(s)) == SanitizeComponent(s)
    ensures TruncateId(TruncateId(s)) == TruncateId(s)
  {
    if s != "" {
      assert SanitizeChars(s)[0] == SanitizeChars(s)[0];
      if Clean(s) {
        assert forall i :: 0 <= i < |s| ==> s[i] in s;
        assert SanitizeChars(s) == s;
      }
    }
    var r := SanitizeComponent(s);
    assert Clean(r);
    assert forall i :: 0 <= i < |r| ==> r[i] in r;
    assert SanitizeChars(r) == r;
  }

  /** Letters, digits, hyphens and underscores stay; any other character becomes an
      underscore, so that a name never leaves the directory. */
  lemma SanitizeReplacesTheRest(s: string, i: nat)
    requires i < |s|
    ensures |SanitizeComponent(s)| == |s|
    ensures var c := s[i];
      SanitizeComponent(s)[i] ==
        if 'a' <= c <= 'z' || 'A' <= c <= 'Z' || '0' <= c <= '9' || c in "-_" then c else '_'
  {
  }

  /** When the sanitised pod UIDs and container ids hold no underscore, two equal
      file names name the same sanitised pod, sanitised interface and container
      prefix. */
  lemma FileNameIsUnambiguous(uid: string, name: string, cid: string, uid': string, name': string, cid': string)
    requires '_' !in SanitizeComponent(uid) && '_' !in SanitizeComponent(uid')
    requires '_' !in SanitizeComponent(cid) && '_' !in SanitizeComponent(cid')
    requires FileName(uid, name, cid) == FileName(uid', name', cid')
    ensures SanitizeComponent(uid) == SanitizeComponent(uid')
    ensures SanitizeComponent(name) == SanitizeComponent(name')
    ensures TruncateId(SanitizeComponent(cid)) == TruncateId(SanitizeComponent(cid'))
  {
    var n, c := SanitizeComponent(name), TruncateId(SanitizeComponent(cid));
    var n', c' := SanitizeComponent(name'), TruncateId(SanitizeComponent(cid'));
    Regroup(SanitizeComponent(uid), n, c);
    Regroup(SanitizeComponent(uid'), n', c');
    SplitAtFirst('_', SanitizeComponent(uid), n + ['_'] + (c + SUFFIX),
                 SanitizeComponent(uid'), n' + ['_'] + (c' + SUFFIX));
    SplitAtLast('_', n, c + SUFFIX, n', c' + SUFFIX);
    assert c == (c + SUFFIX)[..|c + SUFFIX| - |SUFFIX|];
    assert c' == (c' + SUFFIX)[..|c' + SUFFIX| - |SUFFIX|];
  }

  lemma Regroup(u: string, n: string, c: string)
    ensures u + "_" + n + "_" + c + SUFFIX == u + ['_'] + (n + ['_'] + (c + SUFFIX))
  {
  }

  /** With underscores two interfaces can share a file. */
  lemma FileNamesCanCollide()
    ensures FileName("a_b", "c", "id") == FileName("a", "b_c", "id")
  {
    SanitizeIsIdempotent("a_b");
    SanitizeIsIdempotent("b_c");
    assert Clean("a_b") && Clean("b_c") && Clean("a") && Clean("c");
    assert SanitizeComponent("a") == "a" && SanitizeComponent("c") == "c";
    assert "a_b" + "_" + "c" == "a" + "_" + "b_c";
  }

  predicate AllowedChars(s: string) {
    forall c :: c in s ==> AllowedChar(c)
  }

  /** One of the words starts the other, up to an underscore. */
  predicate FrontsMeet(u: string, u': string) {
    u == u' || u + "_" <= u' || u' + "_" <= u
  }

  /** One of the words ends the other, from an underscore on. */
  predicate BacksMeet(c: string, c': string) {
    c == c' || EndsWith(c', "_" + c) || EndsWith(c, "_" + c')
  }

  lemma FillFront(u: string, u': string) returns (f: string, f': string)
    requires AllowedChars(u) && AllowedChars(u') && FrontsMeet(u, u')
    ensures AllowedChars(f) && AllowedChars(f') && u + "_" + f == u' + "_" + f'
  {
    f, f' := "", "";
    if u + "_" <= u' {
      f := u'[|u| + 1..] + "_";
      assert u' == u + "_" + u'[|u| + 1..];
    } else if u' + "_" <= u {
      f' := u[|u'| + 1..] + "_";
      assert u == u' + "_" + u[|u'| + 1..];
    }
  }

  lemma FillBack(c: string, c': string) returns (g: string, g': string)
    requires AllowedChars(c) && AllowedChars(c') && BacksMeet(c, c')
    ensures AllowedChars(g) && AllowedChars(g') && g + "_" + c == g' + "_" + c'
  {
    g, g' := "", "";
    if EndsWith(c', "_" + c) {
      var n := |c'| - |c| - 1;
      g := "_" + c'[..n];
      assert c' == c'[..n] + "_" + c;
    } else if EndsWith(c, "_" + c') {
      var n := |c| - |c'| - 1;
      g' := "_" + c[..n];
      assert c == c[..n] + "_" + c';
    }
  }

  lemma Glue(u: string, f: string, g: string, c: string)
    ensures u + "_" + (f + "m" + g) + "_" + c == (u + "_" + f) + "m" + (g + "_" + c)
  {
  }

  lemma AroundIsClean(f: string, g: string)
    requires AllowedChars(f) && AllowedChars(g)
    ensures SanitizeComponent(f + "m" + g) == f + "m" + g
  {
    var n := f + "m" + g;
    assert n[|f|] == 'm';
    SanitizeIsIdempotent(n);
  }

  lemma NamesThatClash(uid: string, cid: string, uid': string, cid': string)
    requires FrontsMeet(SanitizeComponent(uid), SanitizeComponent(uid'))
    requires BacksMeet(TruncateId(SanitizeComponent(cid)), TruncateId(SanitizeComponent(cid')))
    ensures exists name, name' :: FileName(uid, name, cid) == FileName(uid', name', cid')
  {
    var u, u' := SanitizeComponent(uid), SanitizeComponent(uid');
    var c, c' := TruncateId(SanitizeComponent(cid)), TruncateId(SanitizeComponent(cid'));
    WordsAreAllowed(uid, cid);
    WordsAreAllowed(uid', cid');
    var f, f' := FillFront(u, u');
    var g, g' := FillBack(c, c');
    AroundIsClean(f, g);
    AroundIsClean(f', g');
    Glue(u, f, g, c);
    Glue(u', f', g', c');
    assert FileName(uid, f + "m" + g, cid) == FileName(uid', f' + "m" + g', cid');
  }

  lemma WordsAreAllowed(uid: string, cid: string)
    ensures AllowedChars(SanitizeComponent(uid)) && AllowedChars(TruncateId(SanitizeComponent(cid)))
  {
    SanitizeIsIdempotent(uid);
    SanitizeIsIdempotent(cid);
  }

  lemma ClashingNames(u: string, n: string, c: string, u': string, n': string, c': string)
    requires u + "_" + n + "_" + c + SUFFIX == u' + "_" + n' + "_" + c' + SUFFIX
    ensures FrontsMeet(u, u') && BacksMeet(c, c')
  {
    Regroup(u, n, c);
    Regroup(u', n', c');
    JoinedFront('_', u, n + ['_'] + (c + SUFFIX), u', n' + ['_'] + (c' + SUFFIX));
    var a, b := u + "_" + n + "_" + c, u' + "_" + n' + "_" + c';
    assert a == (a + SUFFIX)[..|a + SUFFIX| - |SUFFIX|] && b == (b + SUFFIX)[..|b + SUFFIX| - |SUFFIX|];
    JoinedBack('_', u + "_" + n, c, u' + "_" + n', c');
  }

  /** Two pods and containers have interfaces that share a file exactly when one
      sanitised pod UID starts the other, up to an underscore, and one container
      prefix ends the other, from an underscore on. */
  lemma FileNamesClashExactlyWhen(uid: string, cid: string, uid': string, cid': string)
    ensures (exists name, name' :: FileName(uid, name, cid) == FileName(uid', name', cid'))
            <==>
              && FrontsMeet(SanitizeComponent(uid), SanitizeComponent(uid'))
              && BacksMeet(TruncateId(SanitizeComponent(cid)), TruncateId(SanitizeComponent(cid')))
  {
    if name, name' :| FileName(uid, name, cid) == FileName(uid', name', cid') {
      ClashingNames(SanitizeComponent(uid), SanitizeComponent(name), TruncateId(SanitizeComponent(cid)),
                    SanitizeComponent(uid'), SanitizeComponent(name'), TruncateId(SanitizeComponent(cid')));
    }
    if FrontsMeet(SanitizeComponent(uid), SanitizeComponent(uid'))
      && BacksMeet(TruncateId(SanitizeComponent(cid)), TruncateId(SanitizeComponent(cid'))) {
      NamesThatClash(uid, cid, uid', cid');
    }
  }

  // ---- deleting ------------------------------------------------------------------

  /** The files of the container. */
  function Matching(files: Files, id: string): set<string> {
    set n | n in files && files[n].Entry? && OfContainer(files[n].entry.containerId, id)
  }

  predicate WellFormed(files: Files) {
    forall n :: n in files ==> files[n].Entry?
  }

  /** One DEL over a readable cache: it takes one matching entry, attempts its
      release if it reached the agent, and removes its file; or does nothing if
      there is none. */
  ghost predicate Del(id: string, dialled: bool, files: Files, released: seq<CacheEntry>,
                      files': Files, released': seq<CacheEntry>)
  {
    if Matching(files, id) == {} then files' == files && released' == released
    else exists n :: n in Matching(files, id) && DelOf(n, dialled, files, released, files', released')
  }

  predicate DelOf(n: string, dialled: bool, files: Files, released: seq<CacheEntry>,
                  files': Files, released': seq<CacheEntry>)
    requires n in files && files[n].Entry?
  {
    files' == files - {n} && released' == if dialled then released + [files[n].entry] else released
  }

  /** A DEL that does not reach the agent removes the file all the same; nothing
      will ask for that release again. */
  lemma DelCanSkipTheRelease()
    ensures var e := CacheEntry("uid", "pod", "default", "profile", "net1", "container");
      Del("container", false, map["file" := Entry(e)], [], map[], [])
  {
    var e := CacheEntry("uid", "pod", "default", "profile", "net1", "container");
    assert "file" in Matching(map["file" := Entry(e)], "container");
    assert map["file" := Entry(e)] - {"file"} == map[];
  }

  predicate Distinct(names: seq<string>) {
    forall i, j :: 0 <= i < j < |names| ==> names[i] != names[j]
  }

  function EntriesAt(files: Files, names: seq<string>): seq<CacheEntry>
    requires forall n :: n in names ==> n in files && files[n].Entry?
  {
    seq(|names|, i requires 0 <= i < |names| => assert names[i] in names; files[names[i]].entry)
  }

  /** Those of the names whose DEL reached the agent. */
  function Dialled(names: seq<string>, dials: seq<bool>): (r: seq<string>)
    requires |names| <= |dials|
    ensures |r| <= |names| && forall n :: n in r ==> n in names
  {
    if names == [] then []
    else
      var rest := Dialled(names[..|names| - 1], dials);
      if dials[|names| - 1] then rest + [names[|names| - 1]] else rest
  }

  lemma {:induction false} DialledIsAll(names: seq<string>, dials: seq<bool>)
    requires |names| <= |dials|
    ensures |Dialled(names, dials)| == |names| <==> forall j :: 0 <= j < |names| ==> dials[j]
    ensures |Dialled(names, dials)| == |names| ==> Dialled(names, dials) == names
  {
    if names != [] {
      DialledIsAll(names[..|names| - 1], dials);
      assert names == names[..|names| - 1] + [names[|names| - 1]];
    }
  }

  /** `picks` are the files that successive DELs took. */
  ghost predicate Drains(id: string, dials: seq<bool>, files: Files, released: seq<CacheEntry>,
                         files': Files, released': seq<CacheEntry>, picks: seq<string>)
  {
    && Distinct(picks) && Elements(picks) <= Matching(files, id)
    && files' == files - Elements(picks)
    && (forall n :: n in picks ==> n in files && files[n].Entry?)
    && |picks| <= |dials| && released' == released + EntriesAt(files, Dialled(picks, dials))
  }

  lemma DrainOneMore(id: string, dials: seq<bool>, files: Files, released: seq<CacheEntry>,
                     f1: Files, r1: seq<CacheEntry>, f2: Files, r2: seq<CacheEntry>, picks: seq<string>)
    returns (picks': seq<string>)
    requires Drains(id, dials, files, released, f1, r1, picks) && |picks| < |dials|
    requires Del(id, dials[|picks|], f1, r1, f2, r2) && Matching(f1, id) != {}
    ensures Drains(id, dials, files, released, f2, r2, picks') && |picks'| == |picks| + 1
  {
    var n :| n in Matching(f1, id) && DelOf(n, dials[|picks|], f1, r1, f2, r2);
    picks' := picks + [n];
    assert Elements(picks') == Elements(picks) + {n};
    assert forall m :: m in picks' <==> m in picks || m == n;
    DialOneMore(files, picks, dials, n);
  }

  lemma DialOneMore(files: Files, picks: seq<string>, dials: seq<bool>, n: string)
    requires |picks| < |dials| && forall m :: m in picks + [n] ==> m in files && files[m].Entry?
    ensures EntriesAt(files, Dialled(picks + [n], dials)) ==
      EntriesAt(files, Dialled(picks, dials)) + if dials[|picks|] then [files[n].entry] else []
  {
    assert (picks + [n])[..|picks|] == picks;
    assert n in picks + [n];
  }

  lemma {:induction false} DistinctSize(names: seq<string>)
    requires Distinct(names)
    ensures |Elements(names)| == |names|
  {
    if names != [] {
      var init := names[..|names| - 1];
      DistinctSize(init);
      ElementsSnoc(names);
      assert names[|names| - 1] !in init;
    }
  }

  /** `dirs[j]` and `logs[j]` are the cache and the attempted releases before the
      j-th DEL of the container, which reaches the agent if `dials[j]`. */
  ghost predicate Dels(id: string, dials: seq<bool>, dirs: seq<Files>, logs: seq<seq<CacheEntry>>) {
    && |dirs| == |logs| == |dials| + 1
    && forall j :: 0 <= j < |dials| ==> Del(id, dials[j], dirs[j], logs[j], dirs[j + 1], logs[j + 1])
  }

  lemma {:induction false} DelsDrain(
      id: string, dials: seq<bool>, dirs: seq<Files>, logs: seq<seq<CacheEntry>>, i: nat)
    returns (picks: seq<string>)
    requires Dels(id, dials, dirs, logs) && i < |dirs|
    ensures Drains(id, dials, dirs[0], logs[0], dirs[i], logs[i], picks)
    ensures |picks| == if i <= |Matching(dirs[0], id)| then i else |Matching(dirs[0], id)|
  {
    if i == 0 {
      picks := [];
      assert dirs[0] - Elements<string>([]) == dirs[0];
    } else {
      var before := DelsDrain(id, dials, dirs, logs, i - 1);
      DistinctSize(before);
      assert Matching(dirs[i - 1], id) == Matching(dirs[0], id) - Elements(before);
      assert |Matching(dirs[i - 1], id)| == |Matching(dirs[0], id)| - |before|;
      assert Del(id, dials[i - 1], dirs[i - 1], logs[i - 1], dirs[i - 1 + 1], logs[i - 1 + 1]);
      if Matching(dirs[i - 1], id) == {} {
        picks := before;
      } else {
        picks := DrainOneMore(id, dials, dirs[0], logs[0], dirs[i - 1], logs[i - 1], dirs[i], logs[i], before);
      }
    }
  }

  /** For a container with n cached entries, n or more successive DELs take each
      once and leave exactly the other files; further DELs do nothing.  They attempt
      the release of every entry exactly when each of the first n reaches the
      agent. */
  lemma EnoughDelsDrain(id: string, dials: seq<bool>, dirs: seq<Files>, logs: seq<seq<CacheEntry>>)
    returns (picks: seq<string>)
    requires Dels(id, dials, dirs, logs) && |Matching(dirs[0], id)| <= |dials|
    ensures var last := |dials|;
      && dirs[last] == dirs[0] - Matching(dirs[0], id) && Matching(dirs[last], id) == {}
      && Drains(id, dials, dirs[0], logs[0], dirs[last], logs[last], picks)
      && Elements(picks) == Matching(dirs[0], id) && |picks| == |Matching(dirs[0], id)|
      && (logs[last] == logs[0] + EntriesAt(dirs[0], picks) <==> forall j :: 0 <= j < |picks| ==> dials[j])
  {
    var last := |dials|;
    picks := DelsDrain(id, dials, dirs, logs, last);
    DistinctSize(picks);
    EqualBySize(Elements(picks), Matching(dirs[0], id));
    DialledIsAll(picks, dials);
    if logs[last] == logs[0] + EntriesAt(dirs[0], picks) {
      assert |EntriesAt(dirs[0], picks)| == |EntriesAt(dirs[0], Dialled(picks, dials))|;
    }
  }

  /** Whatever a series of DELs of one container does, every file of a container whose
      id differs in its first 12 characters, and every unreadable file, stays. */
  lemma {:induction false} DelsLeaveOthers(
      id: string, dials: seq<bool>, dirs: seq<Files>, logs: seq<seq<CacheEntry>>, i: nat, n: string)
    requires Dels(id, dials, dirs, logs) && i < |dirs| && n in dirs[0]
    requires id != "" && (dirs[0][n].Entry? ==> !AgreeOn12(dirs[0][n].entry.containerId, id))
    ensures n in dirs[i] && dirs[i][n] == dirs[0][n]
  {
    if i > 0 {
      DelsLeaveOthers(id, dials, dirs, logs, i - 1, n);
      assert Del(id, dials[i - 1], dirs[i - 1], logs[i - 1], dirs[i - 1 + 1], logs[i - 1 + 1]);
    }
  }

  /** What ADD wrote under a container id, a DEL finds for every id with the same
      first 12 characters, that container's own first of all. */
  lemma WrittenIsMatched(files: Files, e: CacheEntry, id: string)
    ensures NameOf(e) in Matching(files[NameOf(e) := Entry(e)], e.containerId) <==> e.containerId != ""
    ensures e.containerId != "" && AgreeOn12(e.containerId, id) ==>
      NameOf(e) in Matching(files[NameOf(e) := Entry(e)], id)
  {
  }

  datatype Lookup = Found(entry: CacheEntry, name: string) | NotExist | Broken

  /** The cache directory and the releases attempted from it.  `reliable`: no read,
      write or remove fails, and no file goes away while the directory is read. */
  class CacheDir {
    const reliable: bool
    var present: bool
    var files: Files
    var released: seq<CacheEntry>

    /** A failed write may leave an unreadable file, of that name only. */
    method WriteCacheEntry(e: CacheEntry) returns (ok: bool)
      modifies this
      ensures released == old(released) && (reliable ==> ok)
      ensures ok ==> present && files == old(files)[NameOf(e) := Entry(e)]
      ensures !ok ==> files == old(files) || files == old(files)[NameOf(e) := Garbage]
    {
      var failsMkdir, failsWrite, truncates := *, *, *;
      if failsMkdir && !reliable { return false; }
      present := true;
      if failsWrite && !reliable {
        if truncates { files := files[NameOf(e) := Garbage]; }
        return false;
      }
      files := files[NameOf(e) := Entry(e)];
      return true;
    }

    /** The directory's file names, in whatever order they are listed. */
    method ReadDir() returns (names: seq<string>)
      ensures Elements(names) == files.Keys
    {
      names := [];
      var left := files.Keys;
      while left != {}
        invariant left <= files.Keys && Elements(names) == files.Keys - left
        decreases left
      {
        var n :| n in left;
        left := left - {n};
        ElementsSnoc(names + [n]);
        assert (names + [n])[..|names|] == names;
        names := names + [n];
      }
    }

    /** The first listed entry of the container; an unreadable file met before it
        fails the lookup, and one that another DEL has removed since it was listed
        ends it as if there were no entry. */
    method ReadCacheEntry(id: string) returns (r: Lookup, ghost vanished: bool)
      ensures r.Found? ==> r.name in Matching(files, id) && files[r.name] == Entry(r.entry)
      ensures !present ==> r.NotExist?
      ensures r.NotExist? && present && !vanished ==> WellFormed(files) && Matching(files, id) == {}
      ensures r.Broken? ==> !reliable || !WellFormed(files)
      ensures vanished ==> r.NotExist? && !reliable
    {
      vanished := false;
      if !present { return NotExist, vanished; }
      var failsList: bool := *;
      if failsList && !reliable { return Broken, vanished; }
      var names := ReadDir();
      var i := 0;
      while i < |names|
        invariant 0 <= i <= |names| && !vanished
        invariant forall j :: 0 <= j < i ==>
          names[j] in files && files[names[j]].Entry? && names[j] !in Matching(files, id)
      {
        assert names[i] in Elements(names);
        var unreadable: bool, gone: bool := *, *;
        if gone && !reliable { return NotExist, true; }
        if unreadable && !reliable { return Broken, vanished; }
        match files[names[i]]
        case Garbage => return Broken, vanished;
        case Entry(e) =>
          MatchContainerExactlyWhen(e.containerId, id);
          if MatchContainer(e.containerId, id) { return Found(e, names[i]), vanished; }
        i := i + 1;
      }
      forall n | n in files
        ensures files[n].Entry? && n !in Matching(files, id)
      {
        assert n in Elements(names);
      }
      return NotExist, vanished;
    }

    /** DEL: a failed delegate chain or release request is only logged.  Over a
        readable cache it takes one entry, and attempts its release exactly when
        the agent could be dialled. */
    method CmdDel(id: string) returns (ok: bool, dialled: bool)
      modifies `files, `released
      ensures reliable && present && WellFormed(old(files)) ==>
        ok && WellFormed(files) && Del(id, dialled, old(files), old(released), files, released)
      ensures !ok ==> files == old(files)
      ensures !present ==> ok && files == old(files) && released == old(released)
      ensures released == old(released) || (dialled && exists n ::
        n in Matching(old(files), id) && released == old(released) + [old(files)[n].entry])
      ensures files == old(files) || exists n :: n in Matching(old(files), id) && files == old(files) - {n}
      ensures forall n :: n in old(files) && old(files)[n].Entry? && id != ""
                          && !AgreeOn12(old(files)[n].entry.containerId, id) ==>
        n in files && files[n] == old(files)[n]
    {
      dialled := false;
      ghost var vanished;
      var found;
      found, vanished := ReadCacheEntry(id);
      if found.NotExist? { return true, dialled; }
      if found.Broken? { return false, dialled; }
      dialled := *;
      if dialled {
        released := released + [found.entry];
      }
      var removed: bool := *;
      if !removed && !reliable { return false, dialled; }
      files := files - {found.name};
      assert DelOf(found.name, dialled, old(files), old(released), files, released);
      return true, dialled;
    }
  }
}
