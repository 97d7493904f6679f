/** discoverFromImgFolder: manifest entries, the known file and the guessed names probed in batches. */
module Discovery {
  import opened Wrappers
  import opened Paths
  import opened Candidates

  const BatchSize: nat := 25
  /** Probing stops once the set holds this many sources. */
  const EnoughSources: nat := 6

  predicate NoDups(s: seq<string>) {
    forall i, j :: 0 <= i < j < |s| ==> s[i] != s[j]
  }

  /** Set.prototype.add on an insertion-ordered set. */
  function Insert(out: seq<string>, p: string): (r: seq<string>)
    ensures NoDups(out) ==> NoDups(r)
    ensures forall x :: x in r <==> x in out || x == p
    ensures |out| <= |r| <= |out| + 1 && r[..|out|] == out
  {
    if p in out then out else out + [p]
  }

  /** Adding every entry of ps, in order. */
  function InsertAll(out: seq<string>, ps: seq<string>): (r: seq<string>)
    ensures |out| <= |r|
    decreases |ps|
  {
    if ps == [] then out else Insert(InsertAll(out, ps[..|ps| - 1]), ps[|ps| - 1])
  }

  /** Adding a list keeps what was there, in place, adds exactly the entries of the list, and never
      creates a duplicate. */
  lemma {:induction false} InsertAllFacts(out: seq<string>, ps: seq<string>)
    ensures NoDups(out) ==> NoDups(InsertAll(out, ps))
    ensures forall x :: x in InsertAll(out, ps) <==> x in out || x in ps
    ensures InsertAll(out, ps)[..|out|] == out
    decreases |ps|
  {
    if ps != [] {
      var init := ps[..|ps| - 1];
      InsertAllFacts(out, init);
      var r := InsertAll(out, init);
      assert InsertAll(out, ps) == Insert(r, ps[|ps| - 1]);
      assert InsertAll(out, ps)[..|r|] == r;
      assert r[..|out|] == out;
      assert forall x :: x in ps <==> x in init || x == ps[|ps| - 1] by {
        assert ps == init + [ps[|ps| - 1]];
      }
    }
  }

  /** The probes among ps that succeed, in probe order: tryAdd against the image-load oracle. */
  function Loaded(ps: seq<string>, loads: string -> bool): (r: seq<string>)
    ensures |r| <= |ps|
    decreases |ps|
  {
    if ps == [] then []
    else Loaded(ps[..|ps| - 1], loads) + (if loads(ps[|ps| - 1]) then [ps[|ps| - 1]] else [])
  }

  /** A path is kept exactly when it was probed and loads. */
  lemma {:induction false} LoadedMembers(ps: seq<string>, loads: string -> bool)
    ensures forall x :: x in Loaded(ps, loads) <==> x in ps && loads(x)
    decreases |ps|
  {
    if ps != [] {
      var init := ps[..|ps| - 1];
      LoadedMembers(init, loads);
      assert ps == init + [ps[|ps| - 1]];
    }
  }

  lemma {:induction false} LoadedConcat(a: seq<string>, b: seq<string>, loads: string -> bool)
    ensures Loaded(a + b, loads) == Loaded(a, loads) + Loaded(b, loads)
    decreases |b|
  {
    if b == [] {
      assert a + b == a;
    } else {
      var ab := a + b;
      assert ab[..|ab| - 1] == a + b[..|b| - 1];
      assert ab[|ab| - 1] == b[|b| - 1];
      LoadedConcat(a, b[..|b| - 1], loads);
    }
  }

  lemma {:induction false} InsertAllConcat(out: seq<string>, a: seq<string>, b: seq<string>)
    ensures InsertAll(InsertAll(out, a), b) == InsertAll(out, a + b)
    decreases |b|
  {
    if b == [] {
      assert a + b == a;
    } else {
      var ab := a + b;
      assert ab[..|ab| - 1] == a + b[..|b| - 1];
      assert ab[|ab| - 1] == b[|b| - 1];
      InsertAllConcat(out, a, b[..|b| - 1]);
      calc {
        InsertAll(InsertAll(out, a), b);
        Insert(InsertAll(InsertAll(out, a), b[..|b| - 1]), b[|b| - 1]);
        Insert(InsertAll(out, a + b[..|b| - 1]), b[|b| - 1]);
        Insert(InsertAll(out, ab[..|ab| - 1]), ab[|ab| - 1]);
        InsertAll(out, ab);
      }
    }
  }

  /** The manifest step: every entry passed through toImgPath (nothing when the fetch failed). */
  function ManifestPaths(manifest: Option<seq<string>>): seq<string> {
    match manifest
    case None => []
    case Some(m) => MapToImgPath(m)
  }

  /** The set before the guessed names are probed: the manifest entries, then the known file if it loads. */
  function Seeded(manifest: Option<seq<string>>, loads: string -> bool): seq<string> {
    InsertAll(InsertAll([], ManifestPaths(manifest)), Loaded([KnownFile], loads))
  }

  /** The guessed names in the order the nested loops push them. */
  function AllCandidates(): (c: seq<string>)
    ensures |c| == CandidateCount
  {
    seq(CandidateCount, k requires 0 <= k < CandidateCount => CandidateAt(k))
  }

  /** The guessed names are pairwise distinct, so probing never asks for the same file twice. */
  lemma AllCandidatesDistinct()
    ensures NoDups(AllCandidates())
  {
    var c := AllCandidates();
    forall i, j | 0 <= i < j < |c|
      ensures c[i] != c[j]
    {
      CandidatesDistinct(i, j);
    }
  }

  /** The end of candidates.slice(i, i + 25). */
  function BatchEnd(i: nat, n: nat): nat {
    if i + BatchSize <= n then i + BatchSize else n
  }

  /** The set after probing the batch that starts at i. */
  function AfterBatch(out: seq<string>, cands: seq<string>, i: nat, loads: string -> bool): seq<string>
    requires i <= |cands|
  {
    InsertAll(out, Loaded(cands[i..BatchEnd(i, |cands|)], loads))
  }

  /** The batch loop from index i on: stop after a batch that leaves at least six sources, else go on. */
  function Probe(out: seq<string>, cands: seq<string>, i: nat, loads: string -> bool): seq<string>
    decreases |cands| - i
  {
    if i >= |cands| then out
    else
      var next := AfterBatch(out, cands, i, loads);
      if |next| >= EnoughSources then next else Probe(next, cands, i + BatchSize, loads)
  }

  /** How many batches Probe runs. */
  function Batches(out: seq<string>, cands: seq<string>, i: nat, loads: string -> bool): nat
    decreases |cands| - i
  {
    if i >= |cands| then 0
    else
      var next := AfterBatch(out, cands, i, loads);
      if |next| >= EnoughSources then 1 else 1 + Batches(next, cands, i + BatchSize, loads)
  }

  /** What discoverFromImgFolder returns. */
  function Discovered(manifest: Option<seq<string>>, loads: string -> bool): seq<string> {
    Probe(Seeded(manifest, loads), AllCandidates(), 0, loads)
  }

  function BatchCount(manifest: Option<seq<string>>, loads: string -> bool): nat {
    Batches(Seeded(manifest, loads), AllCandidates(), 0, loads)
  }

  /** How many candidates the first b batches cover. Here and below the batch size is written as the
      literal 25, so that the solver sees the products as linear. */
  function Upto(b: nat, n: nat): nat {
    if 25 * b <= n then 25 * b else n
  }

  /** The set once the first b batches have been probed. */
  function SetAfter(seed: seq<string>, cands: seq<string>, b: nat, loads: string -> bool): seq<string> {
    InsertAll(seed, Loaded(cands[..Upto(b, |cands|)], loads))
  }

  lemma NextBatch(seed: seq<string>, cands: seq<string>, b: nat, loads: string -> bool)
    requires 25 * b < |cands|
    ensures AfterBatch(SetAfter(seed, cands, b, loads), cands, 25 * b, loads) == SetAfter(seed, cands, b + 1, loads)
  {
    var i := 25 * b;
    var e := BatchEnd(i, |cands|);
    assert Upto(b, |cands|) == i && Upto(b + 1, |cands|) == e;
    assert cands[..e] == cands[..i] + cands[i..e];
    LoadedConcat(cands[..i], cands[i..e], loads);
    InsertAllConcat(seed, Loaded(cands[..i], loads), Loaded(cands[i..e], loads));
  }

  /** From batch b0 on, the loop probes consecutive batches and stops right after the first one that
      leaves at least six sources, or after the last batch; it returns the set at that point. */
  predicate StopsAt(seed: seq<string>, cands: seq<string>, b0: nat, loads: string -> bool)
    requires 25 * b0 < |cands|
  {
    var start := SetAfter(seed, cands, b0, loads);
    var c := Batches(start, cands, 25 * b0, loads);
    c >= 1 && 25 * (b0 + c - 1) < |cands| &&
    Probe(start, cands, 25 * b0, loads) == SetAfter(seed, cands, b0 + c, loads) &&
    (forall b :: b0 < b < b0 + c ==> |SetAfter(seed, cands, b, loads)| < EnoughSources) &&
    (|SetAfter(seed, cands, b0 + c, loads)| >= EnoughSources || Upto(b0 + c, |cands|) == |cands|)
  }

  lemma StopsHere(seed: seq<string>, cands: seq<string>, b0: nat, loads: string -> bool)
    requires 25 * b0 < |cands|
    requires |SetAfter(seed, cands, b0 + 1, loads)| >= EnoughSources
    ensures StopsAt(seed, cands, b0, loads)
  {
    NextBatch(seed, cands, b0, loads);
  }

  lemma StopsAtLastBatch(seed: seq<string>, cands: seq<string>, b0: nat, loads: string -> bool)
    requires 25 * b0 < |cands| <= 25 * b0 + BatchSize
    requires |SetAfter(seed, cands, b0 + 1, loads)| < EnoughSources
    ensures StopsAt(seed, cands, b0, loads)
  {
    NextBatch(seed, cands, b0, loads);
    var next := SetAfter(seed, cands, b0 + 1, loads);
    assert Upto(b0 + 1, |cands|) == |cands|;
    assert Batches(next, cands, 25 * b0 + BatchSize, loads) == 0;
    assert Probe(next, cands, 25 * b0 + BatchSize, loads) == next;
  }

  lemma StopsLater(seed: seq<string>, cands: seq<string>, b0: nat, loads: string -> bool)
    requires 25 * b0 + BatchSize < |cands|
    requires |SetAfter(seed, cands, b0 + 1, loads)| < EnoughSources
    requires StopsAt(seed, cands, b0 + 1, loads)
    ensures StopsAt(seed, cands, b0, loads)
  {
    NextBatch(seed, cands, b0, loads);
    assert 25 * (b0 + 1) == 25 * b0 + BatchSize;
  }

  lemma {:induction false} ProbeStops(seed: seq<string>, cands: seq<string>, b0: nat, loads: string -> bool)
    requires 25 * b0 < |cands|
    ensures StopsAt(seed, cands, b0, loads)
    decreases |cands| - 25 * b0
  {
    if |SetAfter(seed, cands, b0 + 1, loads)| >= EnoughSources {
      StopsHere(seed, cands, b0, loads);
    } else if |cands| <= 25 * b0 + BatchSize {
      StopsAtLastBatch(seed, cands, b0, loads);
    } else {
      ProbeStops(seed, cands, b0 + 1, loads);
      StopsLater(seed, cands, b0, loads);
    }
  }

  lemma SetAfterZero(seed: seq<string>, cands: seq<string>, loads: string -> bool)
    ensures SetAfter(seed, cands, 0, loads) == seed
  {
    assert cands[..0] == [];
  }

  /** Between one and ten batches are probed; every batch before the last left fewer than six sources;
      if fewer than ten ran, the last one reached six. */
  lemma DiscoveryBatches(manifest: Option<seq<string>>, loads: string -> bool)
    ensures var c := BatchCount(manifest, loads);
            var seed, cands := Seeded(manifest, loads), AllCandidates();
            1 <= c <= 10 &&
            Discovered(manifest, loads) == SetAfter(seed, cands, c, loads) &&
            (forall b :: 1 <= b < c ==> |SetAfter(seed, cands, b, loads)| < EnoughSources) &&
            (c < 10 ==> |Discovered(manifest, loads)| >= EnoughSources)
  {
    var seed, cands := Seeded(manifest, loads), AllCandidates();
    SetAfterZero(seed, cands, loads);
    ProbeStops(seed, cands, 0, loads);
  }

  /** The paths that were probed: the known file, then the candidates of the batches that ran. */
  function Probed(manifest: Option<seq<string>>, loads: string -> bool): seq<string> {
    [KnownFile] + AllCandidates()[..Upto(BatchCount(manifest, loads), CandidateCount)]
  }

  /** Every discovered path is a manifest entry passed through toImgPath, or a probed path that loads;
      and every such path is discovered. The result has no duplicates. */
  lemma DiscoveredMembers(manifest: Option<seq<string>>, loads: string -> bool)
    ensures NoDups(Discovered(manifest, loads))
    ensures forall p :: p in Discovered(manifest, loads) <==>
      p in ManifestPaths(manifest) || (p in Probed(manifest, loads) && loads(p))
  {
    DiscoveryBatches(manifest, loads);
    var m := ManifestPaths(manifest);
    var cands := AllCandidates();
    var probedCands := cands[..Upto(BatchCount(manifest, loads), CandidateCount)];
    var fromManifest := InsertAll([], m);
    InsertAllFacts([], m);
    InsertAllFacts(fromManifest, Loaded([KnownFile], loads));
    LoadedMembers([KnownFile], loads);
    var seed := Seeded(manifest, loads);
    InsertAllFacts(seed, Loaded(probedCands, loads));
    LoadedMembers(probedCands, loads);
    assert Probed(manifest, loads) == [KnownFile] + probedCands;
  }

  /** An image oracle under which nothing loads. */
  predicate NeverLoads(p: string) {
    false
  }

  lemma {:induction false} LoadedNothing(ps: seq<string>)
    ensures Loaded(ps, NeverLoads) == []
  {
    if ps != [] {
      LoadedNothing(ps[..|ps| - 1]);
    }
  }

  lemma {:induction false} NothingLoadsProbe(out: seq<string>, cands: seq<string>, i: nat)
    requires |out| < EnoughSources
    ensures Probe(out, cands, i, NeverLoads) == out
    decreases |cands| - i
  {
    if i < |cands| {
      LoadedNothing(cands[i..BatchEnd(i, |cands|)]);
      assert AfterBatch(out, cands, i, NeverLoads) == out;
      NothingLoadsProbe(out, cands, i + BatchSize);
    }
  }

  /** A manifest ["a.jpg", "b.png"] and no image that loads: discovery yields exactly the two
      normalised manifest entries. */
  lemma ManifestOnlyExample()
    ensures Discovered(Some(["a.jpg", "b.png"]), NeverLoads) == ["img/a.jpg", "img/b.png"]
  {
    var m := ManifestPaths(Some(["a.jpg", "b.png"]));
    assert m[0] == ToImgPath("a.jpg") == "img/a.jpg";
    assert m[1] == ToImgPath("b.png") == "img/b.png";
    assert m[..1][..0] == [];
    assert InsertAll([], m[..1]) == ["img/a.jpg"];
    assert m[..|m| - 1] == m[..1];
    assert InsertAll([], m) == ["img/a.jpg", "img/b.png"];
    LoadedNothing([KnownFile]);
    assert Seeded(Some(["a.jpg", "b.png"]), NeverLoads) == ["img/a.jpg", "img/b.png"];
    NothingLoadsProbe(["img/a.jpg", "img/b.png"], AllCandidates(), 0);
  }

  /** The manifest step: arr.forEach(p => out.add(toImgPath(p))) on an empty set. */
  method AddManifest(m: seq<string>) returns (out: seq<string>)
    ensures out == InsertAll([], MapToImgPath(m))
  {
    out := [];
    for k := 0 to |m|
      invariant out == InsertAll([], MapToImgPath(m[..k]))
    {
      assert MapToImgPath(m[..k + 1])[..k] == MapToImgPath(m[..k]);
      out := Insert(out, ToImgPath(m[k]));
    }
    assert m[..|m|] == m;
  }

  /** One batch: tryAdd on every path of the batch; the ones that load join the set. */
  method ProbeBatch(out: seq<string>, batch: seq<string>, loads: string -> bool) returns (next: seq<string>)
    ensures next == InsertAll(out, Loaded(batch, loads))
  {
    next := out;
    for k := 0 to |batch|
      invariant next == InsertAll(out, Loaded(batch[..k], loads))
    {
      assert batch[..k + 1][..k] == batch[..k];
      ghost var kept := Loaded(batch[..k], loads);
      if loads(batch[k]) {
        assert Loaded(batch[..k + 1], loads) == kept + [batch[k]];
        assert (kept + [batch[k]])[..|kept|] == kept;
        next := Insert(next, batch[k]);
      } else {
        assert Loaded(batch[..k + 1], loads) == kept;
      }
    }
    assert batch[..|batch|] == batch;
  }

  /** discoverFromImgFolder, with fetch(img/manifest.json) as the optional list `manifest` and image
      loading as the oracle `loads`. The set stores the plain path, never the cache-busting URL. */
  method Discover(manifest: Option<seq<string>>, loads: string -> bool) returns (found: seq<string>)
    ensures found == Discovered(manifest, loads)
    ensures NoDups(found)
    ensures forall p :: p in found <==> p in ManifestPaths(manifest) || (p in Probed(manifest, loads) && loads(p))
  {
    var out: seq<string> := [];
    if manifest.Some? {
      out := AddManifest(manifest.value);
    }
    out := ProbeBatch(out, [KnownFile], loads);
    var cands := BuildCandidates();
    assert cands == AllCandidates();
    var i := 0;
    while i < |cands|
      invariant Probe(out, cands, i, loads) == Discovered(manifest, loads)
      decreases |cands| - i
    {
      out := ProbeBatch(out, cands[i..BatchEnd(i, |cands|)], loads);
      if |out| >= EnoughSources {
        break;
      }
      i := i + BatchSize;
    }
    found := out;
    DiscoveredMembers(manifest, loads);
  }
}
