/** Copying specs and overlays from source ConfigMaps into the ones that the proxy mounts
    (pkg/operator/controller/mcpproxy_controller.go:203-296): when a second pass writes
    nothing, and when a named file is really there. */
module ConfigMapSync {
  import opened Json
  import opened ConfigGen
  import opened UpstreamWatch

  /** The value of a ConfigMap key: text, or a configuration written as YAML. */
  datatype Document = Text(text: string) | Rendered(config: GenConfig)

  /** The ConfigMaps of the cluster and the number of writes so far. A ConfigMap without
      entries is read back with no Data at all. */
  datatype Store = Store(maps: map<Key, map<string, Document>>, writes: nat)

  datatype Outcome<T> = Done(store: T) | Failed(store: T)

  /** A missing key reads as the empty text. */
  function Lookup(data: map<string, Document>, file: string): Document {
    if file in data then data[file] else Text("")
  }

  function DataAt(st: Store, dest: Key): map<string, Document> {
    if dest in st.maps then st.maps[dest] else map[]
  }

  /** A key is written unless some Data is there and the key already reads as the value. */
  function Upsert(st: Store, dest: Key, file: string, value: Document): Store {
    var data := DataAt(st, dest);
    if data != map[] && Lookup(data, file) == value then st
    else Store(st.maps[dest := data[file := value]], st.writes + 1)
  }

  /** One key to copy. */
  datatype Copy = Copy(source: Key, key: string, dest: Key, file: string)

  predicate Available(st: Store, c: Copy) {
    c.source in st.maps && c.key in st.maps[c.source]
  }

  function ValueOf(st: Store, c: Copy): Document {
    if Available(st, c) then st.maps[c.source][c.key] else Text("")
  }

  function CopyOne(st: Store, c: Copy): Outcome<Store> {
    if Available(st, c) then Done(Upsert(st, c.dest, c.file, ValueOf(st, c))) else Failed(st)
  }

  /** Copies are made in order, up to the first that fails. */
  function CopyAll(st: Store, cs: seq<Copy>): Outcome<Store> {
    if cs == [] then Done(st)
    else
      match CopyAll(st, cs[..|cs| - 1])
      case Failed(s) => Failed(s)
      case Done(s) => CopyOne(s, cs[|cs| - 1])
  }

  function SpecsMap(p: Proxy): Key { (p.ns, p.name + "-specs") }

  function OverlaysMap(p: Proxy): Key { (p.ns, p.name + "-overlays") }

  function SpecCopies(p: Proxy, up: Upstream): seq<Copy> {
    if up.specRef.None? then []
    else [Copy((up.ns, up.specRef.value.name), up.specRef.value.key, SpecsMap(p), FileKey(up))]
  }

  function OverlayCopies(p: Proxy, up: Upstream): seq<Copy> {
    if up.overlayRef.None? then []
    else [Copy((up.ns, up.overlayRef.value.name), up.overlayRef.value.key, OverlaysMap(p), FileKey(up))]
  }

  function CopiesOf(p: Proxy, up: Upstream): seq<Copy> {
    if IsCommand(up) then [] else SpecCopies(p, up) + OverlayCopies(p, up)
  }

  function Copies(p: Proxy, ups: seq<Upstream>): seq<Copy> {
    if ups == [] then [] else Copies(p, ups[..|ups| - 1]) + CopiesOf(p, ups[|ups| - 1])
  }

  // ---------- Properties ----------

  /** Nothing is copied from a map that is copied to. */
  predicate Apart(cs: seq<Copy>) {
    forall i, j :: 0 <= i < |cs| && 0 <= j < |cs| ==> cs[i].source != cs[j].dest
  }

  predicate SameFile(a: Copy, b: Copy) {
    a.dest == b.dest && a.file == b.file
  }

  /** Copies into one file have one value. */
  predicate Agree(st: Store, cs: seq<Copy>) {
    forall i, j :: 0 <= i < |cs| && 0 <= j < |cs| && SameFile(cs[i], cs[j]) ==> ValueOf(st, cs[i]) == ValueOf(st, cs[j])
  }

  predicate UpToDate(st: Store, c: Copy) {
    Available(st, c) && DataAt(st, c.dest) != map[] && Lookup(DataAt(st, c.dest), c.file) == ValueOf(st, c)
  }

  lemma UpsertFacts(st: Store, dest: Key, file: string, value: Document)
    ensures var r := Upsert(st, dest, file, value);
            && (forall k :: k != dest ==> (k in r.maps <==> k in st.maps) && DataAt(r, k) == DataAt(st, k))
            && dest in r.maps && DataAt(r, dest) != map[] && Lookup(DataAt(r, dest), file) == value
            && (forall f :: f != file ==> (f in DataAt(r, dest) <==> f in DataAt(st, dest)) &&
                                          Lookup(DataAt(r, dest), f) == Lookup(DataAt(st, dest), f))
            && (file in DataAt(r, dest) <==> file in DataAt(st, dest) || value != Text("") || DataAt(st, dest) == map[])
            && (r == st || r.writes > st.writes)
            && (r == st <==> DataAt(st, dest) != map[] && Lookup(DataAt(st, dest), file) == value)
  {
    assert DataAt(st, dest)[file := value] != map[] by {
      assert file in DataAt(st, dest)[file := value];
    }
  }

  predicate IsDest(cs: seq<Copy>, k: Key) {
    exists i :: 0 <= i < |cs| && cs[i].dest == k
  }

  lemma InitDest(cs: seq<Copy>, k: Key)
    requires cs != []
    ensures IsDest(cs, k) <==> IsDest(cs[..|cs| - 1], k) || cs[|cs| - 1].dest == k
  {
    if i :| 0 <= i < |cs| && cs[i].dest == k {
      if i < |cs| - 1 {
        assert cs[..|cs| - 1][i].dest == k;
      }
    }
    var init := cs[..|cs| - 1];
    if i :| 0 <= i < |init| && init[i].dest == k {
      assert cs[i].dest == k;
    }
  }

  /** Copying changes no map that is not copied to, and never takes a write back. */
  lemma {:induction false} CopyKeeps(st: Store, cs: seq<Copy>, k: Key)
    ensures var r := CopyAll(st, cs).store;
            && (!IsDest(cs, k) ==> (k in r.maps <==> k in st.maps) && DataAt(r, k) == DataAt(st, k))
            && (r == st || r.writes > st.writes)
  {
    if cs != [] {
      var init, last := cs[..|cs| - 1], cs[|cs| - 1];
      CopyKeeps(st, init, k);
      InitDest(cs, k);
      var s := CopyAll(st, init).store;
      UpsertFacts(s, last.dest, last.file, ValueOf(s, last));
      hide DataAt, Upsert, ValueOf, Lookup, IsDest;
    }
  }

  lemma ApartKept(st: Store, cs: seq<Copy>, n: nat, c: Copy)
    requires n <= |cs| && !IsDest(cs, c.source)
    ensures var s := CopyAll(st, cs[..n]).store;
            (Available(s, c) <==> Available(st, c)) && ValueOf(s, c) == ValueOf(st, c)
  {
    CopyKeeps(st, cs[..n], c.source);
    assert !IsDest(cs[..n], c.source);
    hide CopyAll, IsDest;
  }

  lemma SourceApart(cs: seq<Copy>, i: nat)
    requires Apart(cs) && i < |cs|
    ensures !IsDest(cs, cs[i].source) && Apart(cs[..|cs| - 1])
  {
  }

  /** After a successful pass every file reads as its value, if copies into one file agree. */
  lemma {:induction false} AllUpToDate(st: Store, cs: seq<Copy>, i: nat)
    requires Apart(cs) && Agree(st, cs) && CopyAll(st, cs).Done? && i < |cs|
    ensures UpToDate(CopyAll(st, cs).store, cs[i]) && ValueOf(CopyAll(st, cs).store, cs[i]) == ValueOf(st, cs[i])
  {
    var init, last := cs[..|cs| - 1], cs[|cs| - 1];
    var s, r := CopyAll(st, init).store, CopyAll(st, cs).store;
    assert CopyAll(st, init).Done? && Available(s, last) && r == Upsert(s, last.dest, last.file, ValueOf(s, last));
    SourceApart(cs, i);
    SourceApart(cs, |cs| - 1);
    ApartKept(st, cs, |cs|, cs[i]);
    ApartKept(st, cs, |cs| - 1, last);
    ApartKept(st, cs, |cs| - 1, cs[i]);
    assert cs[..|cs|] == cs;
    UpsertFacts(s, last.dest, last.file, ValueOf(s, last));
    assert SameFile(cs[i], last) ==> ValueOf(st, cs[i]) == ValueOf(st, last);
    if i < |cs| - 1 {
      assert Agree(st, init) by {
        hide ValueOf, SameFile;
      }
      AllUpToDate(st, init, i);
      assert init[i] == cs[i];
    }
    hide CopyAll, Upsert, Apart, Agree, IsDest;
    StillUpToDate(st, s, r, last, cs[i], i == |cs| - 1);
  }

  lemma StillUpToDate(st: Store, s: Store, r: Store, last: Copy, c: Copy, isLast: bool)
    requires Available(s, last) && ValueOf(s, last) == ValueOf(st, last)
    requires r == Upsert(s, last.dest, last.file, ValueOf(s, last))
    requires Available(r, c) <==> Available(st, c)
    requires Available(s, c) <==> Available(st, c)
    requires ValueOf(r, c) == ValueOf(st, c) == ValueOf(s, c)
    requires SameFile(c, last) ==> ValueOf(st, c) == ValueOf(st, last)
    requires if isLast then c == last else UpToDate(s, c)
    ensures UpToDate(r, c)
  {
    UpsertFacts(s, last.dest, last.file, ValueOf(s, last));
    hide Upsert, DataAt, Lookup;
  }

  /** A pass over files that are all up to date writes nothing. */
  lemma {:induction false} NothingToCopy(st: Store, cs: seq<Copy>)
    requires forall i :: 0 <= i < |cs| ==> UpToDate(st, cs[i])
    ensures CopyAll(st, cs) == Done(st)
  {
    if cs != [] {
      NothingToCopy(st, cs[..|cs| - 1]);
      assert UpToDate(st, cs[|cs| - 1]);
    }
  }

  /** A pass that writes nothing finds every file up to date. */
  lemma {:induction false} NothingCopied(st: Store, cs: seq<Copy>, i: nat)
    requires CopyAll(st, cs) == Done(st) && i < |cs|
    ensures UpToDate(st, cs[i])
  {
    var init, last := cs[..|cs| - 1], cs[|cs| - 1];
    var s := CopyAll(st, init).store;
    CopyKeeps(st, init, last.dest);
    UpsertFacts(s, last.dest, last.file, ValueOf(s, last));
    hide Upsert, DataAt, Lookup, IsDest;
    assert s == st;
    if i < |cs| - 1 {
      NothingCopied(st, init, i);
    }
  }

  /** A second pass writes nothing if and only if copies into one file agree. */
  lemma SecondPassIff(st: Store, cs: seq<Copy>)
    requires Apart(cs) && CopyAll(st, cs).Done?
    ensures var r := CopyAll(st, cs).store;
            CopyAll(r, cs) == Done(r) <==> Agree(st, cs)
  {
    var r := CopyAll(st, cs).store;
    if Agree(st, cs) {
      forall i | 0 <= i < |cs| ensures UpToDate(r, cs[i]) {
        AllUpToDate(st, cs, i);
      }
      NothingToCopy(r, cs);
    }
    if CopyAll(r, cs) == Done(r) {
      forall i | 0 <= i < |cs| ensures UpToDate(r, cs[i]) && ValueOf(r, cs[i]) == ValueOf(st, cs[i]) {
        NothingCopied(r, cs, i);
        SourceApart(cs, i);
        ApartKept(st, cs, |cs|, cs[i]);
        assert cs[..|cs|] == cs;
      }
      AgreeFromLookups(st, r, cs);
    }
  }

  lemma AgreeFromLookups(st: Store, r: Store, cs: seq<Copy>)
    requires forall i :: 0 <= i < |cs| ==> UpToDate(r, cs[i]) && ValueOf(r, cs[i]) == ValueOf(st, cs[i])
    ensures Agree(st, cs)
  {
    hide ValueOf, Available, DataAt, Lookup;
    forall i, j | 0 <= i < |cs| && 0 <= j < |cs| && SameFile(cs[i], cs[j])
      ensures ValueOf(st, cs[i]) == ValueOf(st, cs[j])
    {
      assert UpToDate(r, cs[i]) && UpToDate(r, cs[j]);
    }
  }

  /** The first copy into a map that has no entries yet. */
  predicate Founds(st: Store, cs: seq<Copy>, i: nat)
    requires i < |cs|
  {
    DataAt(st, cs[i].dest) == map[] && forall j :: 0 <= j < i ==> cs[j].dest != cs[i].dest
  }

  predicate WritesFile(st: Store, cs: seq<Copy>, i: nat)
    requires i < |cs|
  {
    ValueOf(st, cs[i]) != Text("") || Founds(st, cs, i)
  }

  /** A file is there after a successful pass if and only if it was there before, or some copy
      into it has a value other than the empty text or is the first into its map: an empty
      value reads the same as a missing key, so it is not written. */
  lemma {:induction false} FileThereIff(st: Store, cs: seq<Copy>, dest: Key, file: string)
    requires Apart(cs) && CopyAll(st, cs).Done?
    ensures var r := CopyAll(st, cs).store;
            file in DataAt(r, dest) <==> file in DataAt(st, dest) ||
                                         exists i :: 0 <= i < |cs| && cs[i].dest == dest && cs[i].file == file &&
                                                   WritesFile(st, cs, i)
  {
    if cs != [] {
      var n := |cs| - 1;
      var init, last := cs[..n], cs[n];
      var s := CopyAll(st, init).store;
      SourceApart(cs, n);
      FileThereIff(st, init, dest, file);
      ApartKept(st, cs, n, last);
      UpsertFacts(s, last.dest, last.file, ValueOf(s, last));
      EmptyIffUntouched(st, init, last.dest);
      hide CopyAll, Upsert, Lookup, ValueOf, Apart;
      ThereStep(st, cs, dest, file);
      assert Founds(st, cs, n) <==> DataAt(s, last.dest) == map[];
    }
  }

  /** A map without entries after a pass had none before and was not copied to. */
  lemma {:induction false} EmptyIffUntouched(st: Store, cs: seq<Copy>, k: Key)
    requires CopyAll(st, cs).Done?
    ensures DataAt(CopyAll(st, cs).store, k) == map[] <==> DataAt(st, k) == map[] && !IsDest(cs, k)
  {
    if cs != [] {
      var init, last := cs[..|cs| - 1], cs[|cs| - 1];
      EmptyIffUntouched(st, init, k);
      InitDest(cs, k);
      var s := CopyAll(st, init).store;
      UpsertFacts(s, last.dest, last.file, ValueOf(s, last));
      hide DataAt, Upsert, ValueOf, Lookup, IsDest;
    }
  }

  predicate WrittenByOne(st: Store, cs: seq<Copy>, dest: Key, file: string) {
    exists i :: 0 <= i < |cs| && cs[i].dest == dest && cs[i].file == file &&
                                                   WritesFile(st, cs, i)
  }

  lemma ThereStep(st: Store, cs: seq<Copy>, dest: Key, file: string)
    requires cs != []
    ensures var n := |cs| - 1;
            WrittenByOne(st, cs, dest, file) <==>
            WrittenByOne(st, cs[..n], dest, file) || (cs[n].dest == dest && cs[n].file == file && WritesFile(st, cs, n))
  {
    hide ValueOf, DataAt;
    var n := |cs| - 1;
    var init := cs[..n];
    forall i | 0 <= i < n ensures init[i] == cs[i] && (WritesFile(st, init, i) <==> WritesFile(st, cs, i)) {
    }
    if WrittenByOne(st, init, dest, file) {
      var i :| 0 <= i < |init| && init[i].dest == dest && init[i].file == file && WritesFile(st, init, i);
      assert WritesFile(st, cs, i);
    }
    if WrittenByOne(st, cs, dest, file) {
      var i :| 0 <= i < |cs| && cs[i].dest == dest && cs[i].file == file &&
                                                   WritesFile(st, cs, i);
      assert i < n ==> WritesFile(st, init, i);
    }
  }

  /** Copying two lists is copying one after the other. */
  lemma {:induction false} CopyAllAppend(st: Store, a: seq<Copy>, b: seq<Copy>)
    ensures CopyAll(st, a + b) == match CopyAll(st, a) { case Failed(s) => Failed(s) case Done(s) => CopyAll(s, b) }
  {
    if b == [] {
      assert a + b == a;
    } else {
      var n := |b| - 1;
      assert (a + b)[..|a + b| - 1] == a + b[..n] && (a + b)[|a + b| - 1] == b[n];
      CopyAllAppend(st, a, b[..n]);
      hide CopyOne;
    }
  }

  lemma CopyAllFew(st: Store, c: Copy)
    ensures CopyAll(st, []) == Done(st) && CopyAll(st, [c]) == CopyOne(st, c)
  {
    assert [c][..0] == [];
  }
}
