// Retention pruning of backup bundles (precis_mcp/backup/prune.py).

module Prune {
  import opened Common
  import opened Strings

  /** An artifact entry; an empty key stands for a skipped or failed artifact. */
  datatype Entry = Entry(store: string, key: string)

  /** `created` is the parsed timestamp, if it parses. */
  datatype Manifest = Manifest(runId: string, created: Option<int>, artifacts: seq<Entry>)
  datatype Retention = Retention(keep: Option<nat>, days: Option<nat>)
  type Manifests = map<string, Manifest>

  const DAY := 86400

  /** One pruning: the readable manifests as listed, the run to protect, `now`, and the wall clock. */
  datatype Job = Job(
    retention: map<string, Retention>, listing: seq<string>, manifests: Manifests, protect: Option<string>, now: int,
    wall: int)

  // ----- Ranks -----------------------------------------------------------------------------------

  /** The key of the first entry for `store`; empty when there is none. */
  function KeyIn(artifacts: seq<Entry>, store: string): string {
    if artifacts == [] then ""
    else if artifacts[0].store == store then artifacts[0].key
    else KeyIn(artifacts[1..], store)
  }

  predicate Has(manifests: Manifests, k: string, store: string) {
    k in manifests && KeyIn(manifests[k].artifacts, store) != ""
  }

  function RunOf(manifests: Manifests, k: string): string {
    if k in manifests then manifests[k].runId else ""
  }

  function Insert(sorted: seq<string>, k: string, manifests: Manifests): seq<string> {
    if sorted == [] then [k]
    else if Leq(RunOf(manifests, k), RunOf(manifests, sorted[0])) then [sorted[0]] + Insert(sorted[1..], k, manifests)
    else [k] + sorted
  }

  /** Newest first by run id, listing order among equals. */
  function NewestFirst(listing: seq<string>, manifests: Manifests): seq<string> {
    if listing == [] then []
    else Insert(NewestFirst(listing[..|listing| - 1], manifests), listing[|listing| - 1], manifests)
  }

  function WithArtifact(keys: seq<string>, manifests: Manifests, store: string): seq<string> {
    if keys == [] then []
    else if Has(manifests, keys[0], store) then [keys[0]] + WithArtifact(keys[1..], manifests, store)
    else WithArtifact(keys[1..], manifests, store)
  }

  function Ranked(job: Job, store: string): seq<string> {
    WithArtifact(NewestFirst(job.listing, job.manifests), job.manifests, store)
  }

  ghost predicate Valid(job: Job) {
    && (forall i, j :: 0 <= i < j < |job.listing| ==> job.listing[i] != job.listing[j])
    && (forall k :: k in job.listing <==> k in job.manifests)
  }

  predicate Descending(keys: seq<string>, manifests: Manifests) {
    forall i, j :: 0 <= i < j < |keys| ==> Leq(RunOf(manifests, keys[j]), RunOf(manifests, keys[i]))
  }

  predicate Distinct(keys: seq<string>) {
    forall i, j :: 0 <= i < j < |keys| ==> keys[i] != keys[j]
  }

  predicate Heads(x: string, rest: seq<string>, manifests: Manifests) {
    forall y :: y in rest ==> y != x && Leq(RunOf(manifests, y), RunOf(manifests, x))
  }

  lemma Prepend(x: string, rest: seq<string>, manifests: Manifests)
    requires Descending(rest, manifests) && Distinct(rest) && Heads(x, rest, manifests)
    ensures Descending([x] + rest, manifests) && Distinct([x] + rest)
  {
    var keys := [x] + rest;
    forall i, j | 0 <= i < j < |keys|
      ensures keys[i] != keys[j] && Leq(RunOf(manifests, keys[j]), RunOf(manifests, keys[i]))
    {
      assert keys[j] == rest[j - 1];
      if i > 0 {
        assert keys[i] == rest[i - 1];
      }
    }
  }

  lemma Behead(keys: seq<string>, manifests: Manifests)
    requires keys != [] && Descending(keys, manifests) && Distinct(keys)
    ensures Descending(keys[1..], manifests) && Distinct(keys[1..]) && Heads(keys[0], keys[1..], manifests)
    ensures forall x :: x in keys <==> x == keys[0] || x in keys[1..]
  {
    assert keys == [keys[0]] + keys[1..];
  }

  lemma {:induction false} InsertSorts(sorted: seq<string>, k: string, manifests: Manifests)
    requires Descending(sorted, manifests) && Distinct(sorted) && k !in sorted
    ensures Descending(Insert(sorted, k, manifests), manifests) && Distinct(Insert(sorted, k, manifests))
    ensures forall x :: x in Insert(sorted, k, manifests) <==> x in sorted || x == k
  {
    if sorted != [] {
      var first, rest := sorted[0], sorted[1..];
      Behead(sorted, manifests);
      LeqTotal(RunOf(manifests, k), RunOf(manifests, first));
      if Leq(RunOf(manifests, k), RunOf(manifests, first)) {
        InsertSorts(rest, k, manifests);
        Prepend(first, Insert(rest, k, manifests), manifests);
      } else {
        forall y | y in sorted
          ensures Leq(RunOf(manifests, y), RunOf(manifests, k))
        {
          if y != first {
            LeqTransitive(RunOf(manifests, y), RunOf(manifests, first), RunOf(manifests, k));
          }
        }
        Prepend(k, sorted, manifests);
      }
    }
  }

  lemma {:induction false} NewestFirstSorts(listing: seq<string>, manifests: Manifests)
    requires Distinct(listing)
    ensures Descending(NewestFirst(listing, manifests), manifests) && Distinct(NewestFirst(listing, manifests))
    ensures forall x :: x in NewestFirst(listing, manifests) <==> x in listing
  {
    if listing != [] {
      var n := |listing| - 1;
      NewestFirstSorts(listing[..n], manifests);
      InsertSorts(NewestFirst(listing[..n], manifests), listing[n], manifests);
      assert listing == listing[..n] + [listing[n]];
    }
  }

  lemma {:induction false} WithArtifactKeeps(keys: seq<string>, manifests: Manifests, store: string)
    requires Descending(keys, manifests) && Distinct(keys)
    ensures Descending(WithArtifact(keys, manifests, store), manifests)
    ensures Distinct(WithArtifact(keys, manifests, store))
    ensures forall x :: x in WithArtifact(keys, manifests, store) <==> x in keys && Has(manifests, x, store)
  {
    if keys != [] {
      Behead(keys, manifests);
      WithArtifactKeeps(keys[1..], manifests, store);
      if Has(manifests, keys[0], store) {
        Prepend(keys[0], WithArtifact(keys[1..], manifests, store), manifests);
      }
    }
  }

  /** The ranking lists exactly the manifests with an artifact in the store, newest first. */
  lemma RankedIs(job: Job, store: string)
    requires Valid(job)
    ensures Descending(Ranked(job, store), job.manifests) && Distinct(Ranked(job, store))
    ensures forall k :: k in Ranked(job, store) <==> Has(job.manifests, k, store)
  {
    NewestFirstSorts(job.listing, job.manifests);
    WithArtifactKeeps(NewestFirst(job.listing, job.manifests), job.manifests, store);
  }

  // ----- What is doomed --------------------------------------------------------------------------

  function Started(m: Manifest, wall: int): int {
    if m.created.Some? then m.created.value else wall
  }

  predicate TooOld(job: Job, store: string, m: Manifest)
    requires store in job.retention
  {
    var days := job.retention[store].days;
    days.Some? && days.value != 0 && Started(m, job.wall) < job.now - days.value * DAY
  }

  predicate TooMany(job: Job, store: string, rank: int)
    requires store in job.retention
  {
    job.retention[store].keep.Some? && rank >= job.retention[store].keep.value
  }

  predicate Protected(job: Job, k: string) {
    k in job.manifests && job.protect == Some(job.manifests[k].runId)
  }

  predicate DoomedAt(job: Job, store: string, rank: int, k: string) {
    && store in job.retention && 0 <= rank < |Ranked(job, store)| && Ranked(job, store)[rank] == k
    && k in job.manifests && !Protected(job, k)
    && (TooMany(job, store, rank) || TooOld(job, store, job.manifests[k]))
  }

  ghost predicate Doomed(job: Job, store: string, k: string) {
    exists rank :: DoomedAt(job, store, rank, k)
  }

  predicate KeyIs(job: Job, k: string, store: string, a: string) {
    k in job.manifests && KeyIn(job.manifests[k].artifacts, store) == a
  }

  /** Artifact `a` of the manifest `k` is to be deleted. */
  ghost predicate DoomedKey(job: Job, k: string, a: string) {
    exists store :: Doomed(job, store, k) && KeyIs(job, k, store, a)
  }

  /** The first loop, over the stores. */
  method CollectDoomed(job: Job) returns (doomed: map<string, seq<string>>)
    requires Valid(job)
    ensures forall k, a :: (k in doomed && a in doomed[k]) <==> DoomedKey(job, k, a)
    ensures forall k :: k in doomed ==> doomed[k] != [] && k in job.manifests
    ensures OneStorePerKey(job.manifests) ==> forall k :: k in doomed ==> Distinct(doomed[k])
  {
    doomed := map[];
    var left, done := job.retention.Keys, {};
    while left != {}
      invariant left <= job.retention.Keys && left !! done
      invariant forall store :: store in job.retention <==> store in left || store in done
      invariant forall k, a :: Listed(doomed, k, a) <==> DoomedBy(job, done, k, a)
      invariant forall k :: k in doomed ==> doomed[k] != [] && k in job.manifests
      invariant OneStorePerKey(job.manifests) ==> forall k :: k in doomed ==> Distinct(doomed[k])
    {
      var store :| store in left;
      left := left - {store};
      doomed := CollectStore(job, store, done, doomed);
      done := done + {store};
    }
    forall k, a
      ensures DoomedBy(job, done, k, a) <==> DoomedKey(job, k, a)
    {
      AllStores(job, done, k, a);
    }
    forall k, a
      ensures (k in doomed && a in doomed[k]) <==> DoomedKey(job, k, a)
    {
      assert Listed(doomed, k, a) <==> DoomedBy(job, done, k, a);
    }
  }

  /** A manifest's entries for different stores have different keys. */
  ghost predicate OneStorePerKey(manifests: Manifests) {
    forall k, s, t :: k in manifests && KeyIn(manifests[k].artifacts, s) == KeyIn(manifests[k].artifacts, t) != "" ==>
      s == t
  }

  predicate Listed(doomed: map<string, seq<string>>, k: string, a: string) {
    k in doomed && a in doomed[k]
  }

  ghost predicate DoomedBy(job: Job, stores: set<string>, k: string, a: string) {
    exists store :: store in stores && Doomed(job, store, k) && KeyIs(job, k, store, a)
  }

  lemma AllStores(job: Job, stores: set<string>, k: string, a: string)
    requires forall store :: store in job.retention ==> store in stores
    ensures DoomedBy(job, stores, k, a) <==> DoomedKey(job, k, a)
  {
    if store :| Doomed(job, store, k) && KeyIs(job, k, store, a) {
      assert store in stores;
    }
  }

  /** The ranks of one store up to `rank`. */
  ghost predicate DoomedUpTo(job: Job, store: string, rank: int, k: string, a: string) {
    exists r :: r < rank && DoomedAt(job, store, r, k) && KeyIs(job, k, store, a)
  }

  /** The loop over one store's ranking. */
  method CollectStore(job: Job, store: string, ghost done: set<string>, doomed0: map<string, seq<string>>)
    returns (doomed: map<string, seq<string>>)
    requires Valid(job) && store in job.retention
    requires forall k, a :: Listed(doomed0, k, a) <==> DoomedBy(job, done, k, a)
    requires forall k :: k in doomed0 ==> doomed0[k] != [] && k in job.manifests
    requires store !in done && (OneStorePerKey(job.manifests) ==> forall k :: k in doomed0 ==> Distinct(doomed0[k]))
    ensures forall k, a :: Listed(doomed, k, a) <==> DoomedBy(job, done + {store}, k, a)
    ensures forall k :: k in doomed ==> doomed[k] != [] && k in job.manifests
    ensures OneStorePerKey(job.manifests) ==> forall k :: k in doomed ==> Distinct(doomed[k])
  {
    doomed := doomed0;
    var ranked := Ranked(job, store);
    RankedIs(job, store);
    for rank := 0 to |ranked|
      invariant forall k, a :: Listed(doomed, k, a) <==>
        Listed(doomed0, k, a) || DoomedUpTo(job, store, rank, k, a)
      invariant forall k :: k in doomed ==> doomed[k] != [] && k in job.manifests
      invariant OneStorePerKey(job.manifests) ==> forall k :: k in doomed ==> Distinct(doomed[k])
    {
      var k := ranked[rank];
      assert Has(job.manifests, k, store);
      var m := job.manifests[k];
      ghost var before := doomed;
      var go := job.protect != Some(m.runId) && (TooMany(job, store, rank) || TooOld(job, store, m));
      if go {
        var listed := if k in doomed then doomed[k] else [];
        if OneStorePerKey(job.manifests) {
          NotListedYet(job, store, done, rank, doomed0, k);
          assert !Listed(before, k, KeyIn(m.artifacts, store));
        }
        doomed := doomed[k := listed + [KeyIn(m.artifacts, store)]];
      }
      forall x, a
        ensures Listed(doomed, x, a) <==> Listed(doomed0, x, a) || DoomedUpTo(job, store, rank + 1, x, a)
      {
        NextRank(job, store, rank, x, a);
        assert Listed(before, x, a) <==> Listed(doomed0, x, a) || DoomedUpTo(job, store, rank, x, a);
      }
    }
    forall k, a
      ensures Listed(doomed, k, a) <==> DoomedBy(job, done + {store}, k, a)
    {
      NextStore(job, done, store, k, a);
    }
  }

  lemma NotListedYet(
    job: Job, store: string, done: set<string>, rank: nat, doomed0: map<string, seq<string>>, k: string)
    requires Valid(job) && OneStorePerKey(job.manifests) && store !in done
    requires rank < |Ranked(job, store)| && Ranked(job, store)[rank] == k && Has(job.manifests, k, store)
    requires forall x, a :: Listed(doomed0, x, a) <==> DoomedBy(job, done, x, a)
    ensures var a := KeyIn(job.manifests[k].artifacts, store);
            !Listed(doomed0, k, a) && !DoomedUpTo(job, store, rank, k, a)
  {
    RankedIs(job, store);
  }

  lemma NextRank(job: Job, store: string, rank: nat, k: string, a: string)
    ensures DoomedUpTo(job, store, rank + 1, k, a) <==>
      DoomedUpTo(job, store, rank, k, a) || (DoomedAt(job, store, rank, k) && KeyIs(job, k, store, a))
  {
  }

  lemma NextStore(job: Job, done: set<string>, store: string, k: string, a: string)
    ensures DoomedBy(job, done + {store}, k, a) <==>
      DoomedBy(job, done, k, a) || DoomedUpTo(job, store, |Ranked(job, store)|, k, a)
  {
    if s :| s in done + {store} && Doomed(job, s, k) && KeyIs(job, k, s, a) {
      var rank :| DoomedAt(job, s, rank, k);
    }
    if DoomedUpTo(job, store, |Ranked(job, store)|, k, a) {
      assert store in done + {store};
    }
    if s :| s in done && Doomed(job, s, k) && KeyIs(job, k, s, a) {
      assert s in done + {store};
    }
  }

  // ----- What is removed -------------------------------------------------------------------------

  /** An artifact belongs to one manifest, and is not itself a manifest. */
  ghost predicate KeysApart(manifests: Manifests) {
    && (forall k, j, a :: Lists(manifests, k, a) && Lists(manifests, j, a) ==> k == j)
    && (forall k, a :: Lists(manifests, k, a) ==> a !in manifests)
  }

  predicate Lists(manifests: Manifests, k: string, a: string) {
    k in manifests && a != "" && exists i :: 0 <= i < |manifests[k].artifacts| && manifests[k].artifacts[i].key == a
  }

  // How a backup run names what it writes (precis_mcp/backup/runner.py).

  const STORES: set<string> := {"postgres", "clickhouse", "instance", "files"}

  function Folder(store: string): string {
    if store == "postgres" then "pg/" else if store == "clickhouse" then "ch/"
    else if store == "instance" then "instance/"
    else "files/"
  }

  function Extension(store: string): string {
    if store == "postgres" then ".dump" else if store == "clickhouse" then ".zip" else ".tar.gz"
  }

  function ArtifactKey(store: string, run: string): string {
    Folder(store) + run + Extension(store)
  }

  function ManifestKey(run: string): string {
    "manifest/" + run + ".json"
  }

  predicate NamedEntry(entry: Entry, run: string) {
    entry.key == "" || (entry.store in STORES && entry.key == ArtifactKey(entry.store, run))
  }

  /** Every manifest was written by a backup run. */
  predicate WrittenByRuns(manifests: Manifests) {
    forall k :: k in manifests ==>
      && k == ManifestKey(manifests[k].runId)
      && forall i :: 0 <= i < |manifests[k].artifacts| ==>
           NamedEntry(manifests[k].artifacts[i], manifests[k].runId)
  }

  lemma ArtifactKeyTells(store: string, run: string, store': string, run': string)
    requires store in STORES && store' in STORES && ArtifactKey(store, run) == ArtifactKey(store', run')
    ensures store == store' && run == run'
  {
    var key := ArtifactKey(store, run);
    assert key[0] == Folder(store)[0] == Folder(store')[0];
    assert run == key[|Folder(store)|..|key| - |Extension(store)|] == run';
  }

  lemma ManifestIsNoArtifact(store: string, run: string, run': string)
    ensures ArtifactKey(store, run) != ManifestKey(run')
  {
    assert ArtifactKey(store, run)[0] == Folder(store)[0] != ManifestKey(run')[0];
  }

  /** The runner's names keep the artifacts of different runs, and the manifests, apart. */
  lemma RunsKeepKeysApart(manifests: Manifests)
    requires WrittenByRuns(manifests)
    ensures KeysApart(manifests)
  {
    forall k, a | Lists(manifests, k, a)
      ensures a !in manifests
      ensures forall j :: Lists(manifests, j, a) ==> k == j
    {
      var i :| 0 <= i < |manifests[k].artifacts| && manifests[k].artifacts[i].key == a;
      var store, run := manifests[k].artifacts[i].store, manifests[k].runId;
      if a in manifests {
        ManifestIsNoArtifact(store, run, manifests[a].runId);
      }
      forall j | Lists(manifests, j, a)
        ensures k == j
      {
        var n :| 0 <= n < |manifests[j].artifacts| && manifests[j].artifacts[n].key == a;
        ArtifactKeyTells(store, run, manifests[j].artifacts[n].store, manifests[j].runId);
      }
    }
  }

  lemma {:induction false} KeyInStore(artifacts: seq<Entry>, store: string) returns (i: nat)
    requires KeyIn(artifacts, store) != ""
    ensures i < |artifacts| && artifacts[i] == Entry(store, KeyIn(artifacts, store))
  {
    if artifacts[0].store == store {
      i := 0;
    } else {
      i := KeyInStore(artifacts[1..], store);
      i := i + 1;
    }
  }

  /** And they keep the artifacts of one run apart. */
  lemma RunsKeepStoresApart(manifests: Manifests)
    requires WrittenByRuns(manifests)
    ensures OneStorePerKey(manifests)
  {
    forall k, s, t |
      k in manifests && KeyIn(manifests[k].artifacts, s) == KeyIn(manifests[k].artifacts, t) != ""
      ensures s == t
    {
      var run := manifests[k].runId;
      var i := KeyInStore(manifests[k].artifacts, s);
      var j := KeyInStore(manifests[k].artifacts, t);
      assert NamedEntry(manifests[k].artifacts[i], run) && NamedEntry(manifests[k].artifacts[j], run);
      ArtifactKeyTells(s, run, t, run);
    }
  }

  /** The names, written out. */
  lemma RunWrites(run: string)
    ensures ArtifactKey("postgres", run) == "pg/" + run + ".dump"
    ensures ArtifactKey("clickhouse", run) == "ch/" + run + ".zip"
    ensures ArtifactKey("instance", run) == "instance/" + run + ".tar.gz"
    ensures ArtifactKey("files", run) == "files/" + run + ".tar.gz"
    ensures ManifestKey(run) == "manifest/" + run + ".json"
  {
  }

  /** Keys whose deletion the destination refuses or fails otherwise, and keys it fails to look up. */
  datatype Faults = Faults(denied: set<string>, broken: set<string>, unseen: set<string>) {
    predicate Fails(key: string) {
      key in broken && key !in denied
    }

    predicate Deletes(key: string) {
      key !in broken && key !in denied
    }
  }

  datatype Outcome = Deleted | Denied | Failed

  class Destination {
    var objects: set<string>
    const faults: Faults

    constructor (objects: set<string>, faults: Faults)
      ensures this.objects == objects && this.faults == faults
    {
      this.objects, this.faults := objects, faults;
    }

    /** Deleting a missing object succeeds. */
    method Delete(key: string) returns (outcome: Outcome)
      modifies this
      ensures outcome.Deleted? <==> faults.Deletes(key)
      ensures outcome.Failed? <==> faults.Fails(key)
      ensures objects == if outcome.Deleted? then old(objects) - {key} else old(objects)
    {
      if key in faults.denied {
        return Denied;
      }
      if key in faults.broken {
        return Failed;
      }
      objects := objects - {key};
      outcome := Deleted;
    }

    /** `_exists`: a lookup that fails counts as a missing object. */
    method Exists(key: string) returns (found: bool)
      ensures found <==> key in objects && key !in faults.unseen
    {
      found := key in objects && key !in faults.unseen;
    }
  }

  ghost predicate DoomedArtifact(job: Job, a: string) {
    exists k :: DoomedKey(job, k, a)
  }

  ghost predicate HasDoomed(job: Job, k: string) {
    exists a :: DoomedKey(job, k, a)
  }

  ghost predicate ArtifactGoes(job: Job, faults: Faults, a: string) {
    faults.Deletes(a) && DoomedArtifact(job, a)
  }

  /** Some artifact of the manifest `k` stays and is seen. */
  ghost predicate LeftOver(job: Job, objects: set<string>, faults: Faults, k: string) {
    exists a :: Lists(job.manifests, k, a) && a in objects && a !in faults.unseen && !ArtifactGoes(job, faults, a)
  }

  /** Nothing speaks against deleting the manifest `k`. */
  ghost predicate Emptied(job: Job, objects: set<string>, faults: Faults, k: string) {
    k in job.manifests && HasDoomed(job, k) && !LeftOver(job, objects, faults, k)
  }

  /** What pruning tries to delete at a destination that holds `objects`. */
  ghost predicate Attempted(job: Job, objects: set<string>, faults: Faults, x: string) {
    DoomedArtifact(job, x) || Emptied(job, objects, faults, x)
  }

  ghost predicate Goes(job: Job, objects: set<string>, faults: Faults, x: string) {
    faults.Deletes(x) && Attempted(job, objects, faults, x)
  }

  ghost predicate Refused(job: Job, objects: set<string>, faults: Faults, x: string) {
    x in faults.denied && Attempted(job, objects, faults, x)
  }

  /** A deletion whose failure ends the pruning. */
  ghost predicate Breaks(job: Job, objects: set<string>, faults: Faults, x: string) {
    faults.Fails(x) && Attempted(job, objects, faults, x)
  }

  lemma {:induction false} KeyInListed(artifacts: seq<Entry>, store: string)
    ensures KeyIn(artifacts, store) != "" ==>
              exists i :: 0 <= i < |artifacts| && artifacts[i].key == KeyIn(artifacts, store)
  {
    if artifacts != [] && artifacts[0].store != store && KeyIn(artifacts, store) != "" {
      KeyInListed(artifacts[1..], store);
      var i :| 0 <= i < |artifacts[1..]| && artifacts[1..][i].key == KeyIn(artifacts, store);
      assert artifacts[i + 1].key == KeyIn(artifacts, store);
    }
  }

  lemma DoomedIsListed(job: Job, k: string, a: string)
    requires Valid(job) && DoomedKey(job, k, a)
    ensures Lists(job.manifests, k, a)
  {
    var store :| Doomed(job, store, k) && KeyIs(job, k, store, a);
    var rank :| DoomedAt(job, store, rank, k);
    RankedIs(job, store);
    assert Has(job.manifests, k, store);
    KeyInListed(job.manifests[k].artifacts, store);
  }

  // ----- The second loop -------------------------------------------------------------------------

  datatype Report = Report(deleted: seq<string>, suppressed: nat)

  function Refusals(keys: seq<string>, faults: Faults): set<string> {
    set x | x in keys && x in faults.denied
  }

  lemma RefusalsNext(keys: seq<string>, i: nat, faults: Faults)
    requires i < |keys| && Distinct(keys)
    ensures |Refusals(keys[..i + 1], faults)| ==
            |Refusals(keys[..i], faults)| + (if keys[i] in faults.denied then 1 else 0)
  {
    assert keys[..i + 1] == keys[..i] + [keys[i]];
    assert keys[i] !in keys[..i];
    assert Refusals(keys[..i + 1], faults) ==
           Refusals(keys[..i], faults) + (if keys[i] in faults.denied then {keys[i]} else {});
  }

  /** The deletions of one manifest's doomed artifacts, up to the first that fails. */
  method DeleteAll(dest: Destination, keys: seq<string>, report0: Report)
    returns (ok: bool, deletedHere: set<string>, report: Report)
    modifies dest
    ensures ok <==> forall x :: x in keys ==> !dest.faults.Fails(x)
    ensures forall x :: x in dest.objects <==> x in old(dest.objects) && x !in deletedHere
    ensures forall x :: x in deletedHere ==> x in keys && dest.faults.Deletes(x)
    ensures ok ==> forall x :: x in keys && dest.faults.Deletes(x) ==> x in deletedHere
    ensures forall x :: x in report.deleted <==> x in report0.deleted || x in deletedHere
    ensures ok ==>
      (report.suppressed == 0 <==> report0.suppressed == 0 && forall x :: x in keys ==> x !in dest.faults.denied)
    ensures ok && Distinct(keys) ==> report.suppressed == report0.suppressed + |Refusals(keys, dest.faults)|
  {
    deletedHere, report := {}, report0;
    for i := 0 to |keys|
      invariant forall x :: x in keys[..i] ==> !dest.faults.Fails(x)
      invariant forall x :: x in dest.objects <==> x in old(dest.objects) && x !in deletedHere
      invariant forall x :: x in deletedHere <==> x in keys[..i] && dest.faults.Deletes(x)
      invariant forall x :: x in report.deleted <==> x in report0.deleted || x in deletedHere
      invariant report.suppressed == 0 <==>
        report0.suppressed == 0 && forall x :: x in keys[..i] ==> x !in dest.faults.denied
      invariant Distinct(keys) ==> report.suppressed == report0.suppressed + |Refusals(keys[..i], dest.faults)|
    {
      assert keys[..i + 1] == keys[..i] + [keys[i]];
      if Distinct(keys) {
        RefusalsNext(keys, i, dest.faults);
      }
      var outcome := dest.Delete(keys[i]);
      match outcome
      case Deleted =>
        deletedHere := deletedHere + {keys[i]};
        report := report.(deleted := report.deleted + [keys[i]]);
      case Denied =>
        report := report.(suppressed := report.suppressed + 1);
      case Failed =>
        return false, deletedHere, report;
    }
    assert keys[..|keys|] == keys;
    ok := true;
  }

  /** Whether an artifact of the manifest is left, as far as the destination tells. */
  method Remaining(dest: Destination, artifacts: seq<Entry>, deletedHere: set<string>) returns (some: bool)
    ensures some <==> exists i :: 0 <= i < |artifacts| && Remains(artifacts[i], deletedHere, dest.objects, dest.faults)
  {
    some := false;
    for i := 0 to |artifacts|
      invariant some <==> exists j :: 0 <= j < i && Remains(artifacts[j], deletedHere, dest.objects, dest.faults)
    {
      var e := artifacts[i];
      if e.key != "" && e.key !in deletedHere {
        var found := dest.Exists(e.key);
        if found {
          assert Remains(artifacts[i], deletedHere, dest.objects, dest.faults);
          some := true;
        }
      }
    }
  }

  predicate Remains(e: Entry, deletedHere: set<string>, objects: set<string>, faults: Faults) {
    e.key != "" && e.key !in deletedHere && e.key in objects && e.key !in faults.unseen
  }

  /** The deletions tried for the manifests of `done`. */
  ghost predicate AttemptedBy(job: Job, objects: set<string>, faults: Faults, done: set<string>, x: string) {
    || (exists k :: k in done && DoomedKey(job, k, x))
    || (x in done && Emptied(job, objects, faults, x))
  }

  ghost predicate GoneBy(job: Job, objects: set<string>, faults: Faults, done: set<string>, x: string) {
    faults.Deletes(x) && AttemptedBy(job, objects, faults, done, x)
  }

  ghost predicate RefusedBy(job: Job, objects: set<string>, faults: Faults, done: set<string>, x: string) {
    x in faults.denied && AttemptedBy(job, objects, faults, done, x)
  }

  ghost function AllRefusedBy(job: Job, objects: set<string>, faults: Faults, done: set<string>): set<string> {
    set x | x in faults.denied && AttemptedBy(job, objects, faults, done, x)
  }

  ghost function AllRefused(job: Job, objects: set<string>, faults: Faults): set<string> {
    set x | x in faults.denied && Attempted(job, objects, faults, x)
  }

  /** The report after the manifests of `done`: what was deleted, and whether anything was refused. */
  ghost predicate Reports(
    report: Report, job: Job, objects: set<string>, faults: Faults, done: set<string>)
  {
    && (forall x :: x in report.deleted <==> GoneBy(job, objects, faults, done, x))
    && (report.suppressed == 0 <==> forall x :: !RefusedBy(job, objects, faults, done, x))
    && (OneStorePerKey(job.manifests) ==> report.suppressed == |AllRefusedBy(job, objects, faults, done)|)
  }

  /** What a pruning that fails at the manifest `k` leaves: some doomed artifacts of `k` have gone too. */
  ghost predicate CutShort(
    job: Job, objects: set<string>, faults: Faults, done: set<string>, k: string, after: set<string>)
  {
    && (forall x :: x in after ==> x in objects && !GoneBy(job, objects, faults, done, x))
    && (forall x :: x in objects && x !in after ==>
          GoneBy(job, objects, faults, done, x) || (faults.Deletes(x) && DoomedKey(job, k, x)))
  }

  /** Before its turn, a manifest's artifacts are as they were. */
  lemma Untouched(job: Job, objects: set<string>, faults: Faults, done: set<string>, k: string, a: string)
    requires Valid(job) && KeysApart(job.manifests) && Lists(job.manifests, k, a) && k !in done
    ensures !AttemptedBy(job, objects, faults, done, a)
  {
    if j :| j in done && DoomedKey(job, j, a) {
      DoomedIsListed(job, j, a);
    }
  }

  lemma DoomIsOwn(job: Job, k: string, a: string)
    requires Valid(job) && KeysApart(job.manifests) && Lists(job.manifests, k, a)
    ensures DoomedArtifact(job, a) <==> DoomedKey(job, k, a)
  {
    if j :| DoomedKey(job, j, a) {
      DoomedIsListed(job, j, a);
    }
  }

  lemma ManifestIsNotDoomed(job: Job, k: string)
    requires Valid(job) && KeysApart(job.manifests) && k in job.manifests
    ensures !DoomedArtifact(job, k)
  {
    if j :| DoomedKey(job, j, k) {
      DoomedIsListed(job, j, k);
    }
  }

  /** One round: the manifest `k` and its doomed artifacts `keys`; None when a deletion fails. */
  method SweepOne(
    dest: Destination, job: Job, k: string, keys: seq<string>, ghost objects: set<string>, ghost done: set<string>,
    report0: Report)
    returns (r: Option<Report>)
    requires Valid(job) && KeysApart(job.manifests) && k in job.manifests && k !in done && HasDoomed(job, k)
    requires forall a :: a in keys <==> DoomedKey(job, k, a)
    requires OneStorePerKey(job.manifests) ==> Distinct(keys)
    requires forall x :: x in dest.objects <==> x in objects && !GoneBy(job, objects, dest.faults, done, x)
    requires Reports(report0, job, objects, dest.faults, done)
    modifies dest
    ensures r.Some? <==> BreaksNowhere(job, objects, dest.faults, k)
    ensures r.Some? ==>
      forall x :: x in dest.objects <==> x in objects && !GoneBy(job, objects, dest.faults, done + {k}, x)
    ensures r.Some? ==> Reports(r.value, job, objects, dest.faults, done + {k})
    ensures r.None? ==> CutShort(job, objects, dest.faults, done, k, dest.objects)
  {
    ghost var before := dest.objects;
    var ok, deletedHere, report := DeleteAll(dest, keys, report0);
    if !ok {
      return None;
    }
    var some := Remaining(dest, job.manifests[k].artifacts, deletedHere);
    RemainsIsLeftOver(job, objects, dest.faults, done, k, keys, before, dest.objects, deletedHere);
    if !some {
      var outcome := dest.Delete(k);
      match outcome
      case Deleted =>
        report := report.(deleted := report.deleted + [k]);
      case Denied =>
        report := report.(suppressed := report.suppressed + 1);
      case Failed =>
        return None;
    }
    forall x
      ensures x in dest.objects <==> x in objects && !GoneBy(job, objects, dest.faults, done + {k}, x)
      ensures x in report.deleted <==> GoneBy(job, objects, dest.faults, done + {k}, x)
    {
      AttemptedNext(job, objects, dest.faults, done, k, x);
    }
    RefusedNext(job, objects, dest.faults, done, k);
    AllRefusedNext(job, objects, dest.faults, done, k, keys);
    r := Some(report);
  }

  /** No deletion tried for the manifest `k` fails. */
  ghost predicate BreaksNowhere(job: Job, objects: set<string>, faults: Faults, k: string) {
    && (forall a :: DoomedKey(job, k, a) ==> !faults.Fails(a))
    && (Emptied(job, objects, faults, k) ==> !faults.Fails(k))
  }

  lemma AttemptedNext(job: Job, objects: set<string>, faults: Faults, done: set<string>, k: string, x: string)
    ensures AttemptedBy(job, objects, faults, done + {k}, x) <==>
      || AttemptedBy(job, objects, faults, done, x) || DoomedKey(job, k, x)
      || (x == k && Emptied(job, objects, faults, k))
  {
  }

  lemma RefusedNext(job: Job, objects: set<string>, faults: Faults, done: set<string>, k: string)
    ensures (forall x :: !RefusedBy(job, objects, faults, done + {k}, x)) <==>
      && (forall x :: !RefusedBy(job, objects, faults, done, x))
      && (forall a :: DoomedKey(job, k, a) ==> a !in faults.denied)
      && (Emptied(job, objects, faults, k) ==> k !in faults.denied)
  {
    forall x
      ensures RefusedBy(job, objects, faults, done + {k}, x) <==>
        || RefusedBy(job, objects, faults, done, x) || (x in faults.denied && DoomedKey(job, k, x))
        || (x == k && x in faults.denied && Emptied(job, objects, faults, k))
    {
      AttemptedNext(job, objects, faults, done, k, x);
    }
  }

  lemma AllRefusedNext(
    job: Job, objects: set<string>, faults: Faults, done: set<string>, k: string, keys: seq<string>)
    requires Valid(job) && KeysApart(job.manifests) && k in job.manifests && k !in done
    requires forall a :: a in keys <==> DoomedKey(job, k, a)
    ensures |AllRefusedBy(job, objects, faults, done + {k})| ==
            |AllRefusedBy(job, objects, faults, done)| + |Refusals(keys, faults)|
            + (if k in faults.denied && Emptied(job, objects, faults, k) then 1 else 0)
  {
    var own := if k in faults.denied && Emptied(job, objects, faults, k) then {k} else {};
    var before, more := AllRefusedBy(job, objects, faults, done), Refusals(keys, faults);
    ManifestIsNotDoomed(job, k);
    forall a | a in more
      ensures a !in before && a != k
    {
      DoomedIsListed(job, k, a);
      Untouched(job, objects, faults, done, k, a);
    }
    forall x
      ensures x in AllRefusedBy(job, objects, faults, done + {k}) <==> x in before + more + own
    {
      AttemptedNext(job, objects, faults, done, k, x);
    }
    assert AllRefusedBy(job, objects, faults, done + {k}) == before + more + own;
  }

  lemma RemainsIsLeftOver(
    job: Job, objects: set<string>, faults: Faults, done: set<string>, k: string, keys: seq<string>,
    before: set<string>, after: set<string>, deletedHere: set<string>)
    requires Valid(job) && KeysApart(job.manifests) && k in job.manifests && k !in done
    requires forall a :: a in keys <==> DoomedKey(job, k, a)
    requires forall x :: x in before <==> x in objects && !GoneBy(job, objects, faults, done, x)
    requires forall x :: x in after <==> x in before && x !in deletedHere
    requires forall x :: x in deletedHere <==> x in keys && faults.Deletes(x)
    ensures (exists i :: 0 <= i < |job.manifests[k].artifacts|
                       && Remains(job.manifests[k].artifacts[i], deletedHere, after, faults))
       <==> LeftOver(job, objects, faults, k)
  {
    var artifacts := job.manifests[k].artifacts;
    forall a | Lists(job.manifests, k, a)
      ensures a in after <==> a in objects && !ArtifactGoes(job, faults, a)
    {
      Untouched(job, objects, faults, done, k, a);
      DoomIsOwn(job, k, a);
    }
    if i :| 0 <= i < |artifacts| && Remains(artifacts[i], deletedHere, after, faults) {
      assert Lists(job.manifests, k, artifacts[i].key);
    }
    if a :| Lists(job.manifests, k, a) && a in objects && a !in faults.unseen && !ArtifactGoes(job, faults, a) {
      var i :| 0 <= i < |artifacts| && artifacts[i].key == a;
      assert Remains(artifacts[i], deletedHere, after, faults);
    }
  }

  /** Only what was to go has gone, and no manifest before an artifact of its that is seen. */
  ghost predicate Orderly(job: Job, objects: set<string>, faults: Faults, after: set<string>) {
    && after <= objects
    && (forall x :: x in objects && x !in after ==> Goes(job, objects, faults, x))
    && (forall k, a :: k in objects && k !in after && Lists(job.manifests, k, a) ==> a !in after || a in faults.unseen)
  }

  /** `prune_bundles`; None when it ends in the error of a failed deletion. */
  method PruneBundles(dest: Destination, job: Job) returns (r: Option<Report>)
    requires Valid(job) && KeysApart(job.manifests)
    modifies dest
    ensures r.Some? <==> forall x :: !Breaks(job, old(dest.objects), dest.faults, x)
    ensures r.Some? ==>
      forall x :: x in dest.objects <==> x in old(dest.objects) && !Goes(job, old(dest.objects), dest.faults, x)
    ensures r.Some? ==> forall x :: x in r.value.deleted <==> Goes(job, old(dest.objects), dest.faults, x)
    ensures r.Some? ==>
      (r.value.suppressed == 0 <==> forall x :: !Refused(job, old(dest.objects), dest.faults, x))
    ensures r.Some? && OneStorePerKey(job.manifests) ==>
      r.value.suppressed == |AllRefused(job, old(dest.objects), dest.faults)|
    ensures Orderly(job, old(dest.objects), dest.faults, dest.objects)
  {
    var report := Report([], 0);
    var doomed := CollectDoomed(job);
    ghost var objects := dest.objects;
    var left, done := doomed.Keys, {};
    while left != {}
      invariant left <= doomed.Keys && done !! left && forall k :: k in doomed <==> k in left || k in done
      invariant forall k :: k in done ==> BreaksNowhere(job, objects, dest.faults, k)
      invariant forall x :: x in dest.objects <==> x in objects && !GoneBy(job, objects, dest.faults, done, x)
      invariant Reports(report, job, objects, dest.faults, done)
    {
      var k :| k in left;
      assert DoomedKey(job, k, doomed[k][0]);
      var swept := SweepOne(dest, job, k, doomed[k], objects, done, report);
      if swept.None? {
        SomethingBreaks(job, objects, dest.faults, k);
        CutShortIsOrderly(job, objects, dest.faults, done, k, dest.objects);
        return None;
      }
      report := swept.value;
      left, done := left - {k}, done + {k};
    }
    forall x
      ensures AttemptedBy(job, objects, dest.faults, done, x) <==> Attempted(job, objects, dest.faults, x)
    {
      AllDone(job, objects, dest.faults, doomed, done, x);
    }
    assert forall x :: RefusedBy(job, objects, dest.faults, done, x) <==> Refused(job, objects, dest.faults, x);
    assert AllRefusedBy(job, objects, dest.faults, done) == AllRefused(job, objects, dest.faults);
    NothingBreaks(job, objects, dest.faults, done);
    FinishedIsOrderly(job, objects, dest.faults, dest.objects);
    r := Some(report);
  }

  lemma AllDone(
    job: Job, objects: set<string>, faults: Faults, doomed: map<string, seq<string>>, done: set<string>, x: string)
    requires forall k, a :: (k in doomed && a in doomed[k]) <==> DoomedKey(job, k, a)
    requires forall k :: k in doomed ==> k in done
    ensures AttemptedBy(job, objects, faults, done, x) <==> Attempted(job, objects, faults, x)
  {
    if k :| DoomedKey(job, k, x) {
      assert k in doomed;
    }
    if a :| DoomedKey(job, x, a) {
      assert x in doomed;
    }
  }

  lemma SomethingBreaks(job: Job, objects: set<string>, faults: Faults, k: string)
    requires !BreaksNowhere(job, objects, faults, k)
    ensures exists x :: Breaks(job, objects, faults, x)
  {
    if a :| DoomedKey(job, k, a) && faults.Fails(a) {
      assert Breaks(job, objects, faults, a);
    } else {
      assert Breaks(job, objects, faults, k);
    }
  }

  lemma NothingBreaks(job: Job, objects: set<string>, faults: Faults, done: set<string>)
    requires forall k :: k in done ==> BreaksNowhere(job, objects, faults, k)
    requires forall x :: AttemptedBy(job, objects, faults, done, x) <==> Attempted(job, objects, faults, x)
    ensures forall x :: !Breaks(job, objects, faults, x)
  {
    forall x | AttemptedBy(job, objects, faults, done, x)
      ensures !faults.Fails(x)
    {
    }
  }

  /** An emptied manifest's artifacts are doomed, missing or not seen. */
  lemma EmptiedSees(job: Job, objects: set<string>, faults: Faults, k: string, a: string)
    requires Emptied(job, objects, faults, k) && Lists(job.manifests, k, a) && a in objects && a !in faults.unseen
    ensures ArtifactGoes(job, faults, a)
  {
  }

  lemma FinishedIsOrderly(job: Job, objects: set<string>, faults: Faults, after: set<string>)
    requires Valid(job) && KeysApart(job.manifests)
    requires forall x :: x in after <==> x in objects && !Goes(job, objects, faults, x)
    ensures Orderly(job, objects, faults, after)
  {
    forall k, a | k in objects && k !in after && Lists(job.manifests, k, a) && a in after && a !in faults.unseen
      ensures Goes(job, objects, faults, a)
    {
      ManifestIsNotDoomed(job, k);
      EmptiedSees(job, objects, faults, k, a);
    }
  }

  lemma CutShortIsOrderly(
    job: Job, objects: set<string>, faults: Faults, done: set<string>, k: string, after: set<string>)
    requires Valid(job) && KeysApart(job.manifests) && k in job.manifests && k !in done
    requires CutShort(job, objects, faults, done, k, after)
    ensures Orderly(job, objects, faults, after)
  {
    forall j, a | j in objects && j !in after && Lists(job.manifests, j, a) && a !in faults.unseen
      ensures a !in after
    {
      ManifestIsNotDoomed(job, j);
      assert j in done && Emptied(job, objects, faults, j);
      if a in after {
        EmptiedSees(job, objects, faults, j, a);
        DoomIsOwn(job, j, a);
        assert GoneBy(job, objects, faults, done, a);
      }
    }
  }

  // ----- What pruning promises -------------------------------------------------------------------

  /** The protected run keeps its manifest and every artifact. */
  lemma ProtectedRunStays(job: Job, objects: set<string>, faults: Faults, k: string, x: string)
    requires Valid(job) && KeysApart(job.manifests) && k in job.manifests
    requires job.protect == Some(job.manifests[k].runId) && (x == k || Lists(job.manifests, k, x))
    ensures !Goes(job, objects, faults, x)
  {
    if j :| DoomedKey(job, j, x) {
      DoomedIsListed(job, j, x);
    }
  }

  /** `newer` are distinct manifests with an artifact in the store, none older than `k`. */
  predicate Newer(job: Job, store: string, k: string, newer: seq<string>) {
    Distinct(newer) && forall j :: j in newer ==>
      j != k && Has(job.manifests, j, store) && Leq(RunOf(job.manifests, k), RunOf(job.manifests, j))
  }

  /** The run `k` started more than `days` days before `now`; an unparsable start counts as the present. */
  predicate StartedBefore(job: Job, k: string, days: nat)
    requires k in job.manifests
  {
    var created := job.manifests[k].created;
    (if created.Some? then created.value else job.wall) < job.now - days * 24 * 60 * 60
  }

  ghost predicate Beyond(job: Job, store: string, k: string)
    requires store in job.retention && k in job.manifests
  {
    || (exists newer :: Newer(job, store, k, newer) && job.retention[store].keep == Some(|newer|))
    || exists days :: days > 0 && job.retention[store].days == Some(days) && StartedBefore(job, k, days)
  }

  lemma TooManyIsBeyond(job: Job, store: string, rank: int, k: string)
    requires Valid(job) && DoomedAt(job, store, rank, k) && TooMany(job, store, rank)
    ensures Beyond(job, store, k)
  {
    var ranked := Ranked(job, store);
    RankedIs(job, store);
    var newer := ranked[..job.retention[store].keep.value];
    forall j | j in newer
      ensures j != k && Has(job.manifests, j, store) && Leq(RunOf(job.manifests, k), RunOf(job.manifests, j))
    {
      var i :| 0 <= i < |newer| && newer[i] == j;
      assert ranked[i] == j;
    }
    assert Newer(job, store, k, newer);
  }

  /** An artifact goes only as an unprotected run's artifact of a store, beyond its keep or its age bound. */
  lemma GoesOnlyBeyondBounds(job: Job, objects: set<string>, faults: Faults, a: string)
    requires Valid(job) && KeysApart(job.manifests)
    requires a in objects && a !in job.manifests && Goes(job, objects, faults, a)
    ensures exists k, store ::
      && store in job.retention && k in job.manifests && KeyIs(job, k, store, a)
      && job.protect != Some(job.manifests[k].runId) && Beyond(job, store, k)
  {
    var k :| DoomedKey(job, k, a);
    var store :| Doomed(job, store, k) && KeyIs(job, k, store, a);
    var rank :| DoomedAt(job, store, rank, k);
    if TooMany(job, store, rank) {
      TooManyIsBeyond(job, store, rank, k);
    }
    assert Beyond(job, store, k);
  }

  /** The other runs with an artifact in the store that are not older than `k`. */
  ghost function NotOlder(job: Job, store: string, k: string): set<string> {
    set j | j in job.manifests && j != k && Has(job.manifests, j, store)
            && Leq(RunOf(job.manifests, k), RunOf(job.manifests, j))
  }

  /** Those that are newer. */
  ghost function StrictlyNewer(job: Job, store: string, k: string): set<string> {
    set j | j in NotOlder(job, store, k) && !Leq(RunOf(job.manifests, j), RunOf(job.manifests, k))
  }

  lemma {:induction false} ElementsDistinct(keys: seq<string>)
    requires Distinct(keys)
    ensures |Elements(keys)| == |keys|
  {
    if keys != [] {
      var n := |keys| - 1;
      ElementsDistinct(keys[..n]);
      assert keys == keys[..n] + [keys[n]];
      assert Elements(keys) == Elements(keys[..n]) + {keys[n]};
    }
  }

  /** A run's rank in a store is the number of newer runs, between equal run ids perhaps more. */
  lemma RankCounts(job: Job, store: string, rank: nat)
    requires Valid(job) && rank < |Ranked(job, store)|
    ensures var k := Ranked(job, store)[rank];
            |StrictlyNewer(job, store, k)| <= rank <= |NotOlder(job, store, k)|
  {
    var ranked := Ranked(job, store);
    var k, before := ranked[rank], ranked[..rank];
    RankedIs(job, store);
    ElementsDistinct(before);
    forall j | j in Elements(before)
      ensures j in NotOlder(job, store, k)
    {
      var i :| 0 <= i < rank && before[i] == j;
      assert ranked[i] == j;
    }
    forall j | j in StrictlyNewer(job, store, k)
      ensures j in Elements(before)
    {
      var i :| 0 <= i < |ranked| && ranked[i] == j;
      assert i < rank ==> before[i] == j;
    }
    SubsetSize(Elements(before), NotOlder(job, store, k));
    SubsetSize(StrictlyNewer(job, store, k), Elements(before));
  }

  /** Fewer than `keep` runs of the store are as new as `k`, and `k` is not beyond the age bound. */
  ghost predicate Within(job: Job, store: string, k: string)
    requires store in job.retention && k in job.manifests
  {
    && (forall keep :: job.retention[store].keep == Some(keep) ==> |NotOlder(job, store, k)| < keep)
    && (forall days :: job.retention[store].days == Some(days) && days > 0 ==> !StartedBefore(job, k, days))
  }

  /** At least `keep` runs of the store are newer than `k`, or `k` is beyond the age bound. */
  ghost predicate Surplus(job: Job, store: string, k: string)
    requires store in job.retention && k in job.manifests
  {
    || (exists keep :: job.retention[store].keep == Some(keep) && |StrictlyNewer(job, store, k)| >= keep)
    || (exists days :: job.retention[store].days == Some(days) && days > 0 && StartedBefore(job, k, days))
  }

  lemma DoomedIsOutside(job: Job, store: string, rank: int, k: string)
    requires Valid(job) && DoomedAt(job, store, rank, k)
    ensures !Within(job, store, k)
  {
    RankCounts(job, store, rank);
  }

  /** An artifact within its store's bounds stays. */
  lemma WithinBoundsStays(job: Job, objects: set<string>, faults: Faults, k: string, a: string)
    requires Valid(job) && KeysApart(job.manifests) && Lists(job.manifests, k, a)
    requires forall store :: store in job.retention && KeyIs(job, k, store, a) ==> Within(job, store, k)
    ensures !Goes(job, objects, faults, a)
  {
    DoomIsOwn(job, k, a);
    if DoomedKey(job, k, a) {
      var store :| Doomed(job, store, k) && KeyIs(job, k, store, a);
      var rank :| DoomedAt(job, store, rank, k);
      DoomedIsOutside(job, store, rank, k);
    }
  }

  /** An unprotected run's artifact beyond its store's bounds goes, if the destination deletes it. */
  lemma SurplusGoes(job: Job, objects: set<string>, faults: Faults, store: string, k: string)
    requires Valid(job) && store in job.retention && Has(job.manifests, k, store)
    requires job.protect != Some(job.manifests[k].runId) && Surplus(job, store, k)
    requires faults.Deletes(KeyIn(job.manifests[k].artifacts, store))
    ensures Goes(job, objects, faults, KeyIn(job.manifests[k].artifacts, store))
  {
    RankedIs(job, store);
    var rank :| 0 <= rank < |Ranked(job, store)| && Ranked(job, store)[rank] == k;
    RankCounts(job, store, rank);
    assert DoomedAt(job, store, rank, k);
    assert KeyIs(job, k, store, KeyIn(job.manifests[k].artifacts, store));
    assert DoomedKey(job, k, KeyIn(job.manifests[k].artifacts, store));
  }

  /** With its last artifact goes the manifest: one of them goes, and of the others none exists. */
  lemma ManifestFollows(job: Job, objects: set<string>, faults: Faults, k: string, a: string)
    requires Valid(job) && KeysApart(job.manifests) && Lists(job.manifests, k, a) && Goes(job, objects, faults, a)
    requires forall b :: Lists(job.manifests, k, b) && b in objects ==> Goes(job, objects, faults, b)
    requires faults.Deletes(k)
    ensures Goes(job, objects, faults, k)
  {
    DoomIsOwn(job, k, a);
    assert HasDoomed(job, k);
    forall b | Lists(job.manifests, k, b) && b in objects
      ensures ArtifactGoes(job, faults, b)
    {
      assert b !in job.manifests;
    }
  }

  /** A manifest goes only when none of its artifacts is left at the destination, as far as lookups tell. */
  lemma ManifestGoesLast(job: Job, objects: set<string>, faults: Faults, k: string, a: string)
    requires Valid(job) && KeysApart(job.manifests) && k in job.manifests && Goes(job, objects, faults, k)
    requires Lists(job.manifests, k, a) && a !in faults.unseen
    ensures a !in objects || Goes(job, objects, faults, a)
  {
    ManifestIsNotDoomed(job, k);
    if a in objects {
      EmptiedSees(job, objects, faults, k, a);
    }
  }

  // ----- A manifest that goes too soon -----------------------------------------------------------

  /** The manifest `k` goes while one of its artifacts exists and stays. */
  ghost predicate Strands(job: Job, objects: set<string>, faults: Faults, k: string) {
    Goes(job, objects, faults, k) &&
    exists a :: Lists(job.manifests, k, a) && a in objects && !Goes(job, objects, faults, a)
  }

  /** The artifact `a` of `k` exists, and is not doomed or cannot be deleted. */
  ghost predicate Stays(job: Job, objects: set<string>, faults: Faults, k: string, a: string) {
    Lists(job.manifests, k, a) && a in objects && !(faults.Deletes(a) && DoomedKey(job, k, a))
  }

  lemma StaysIsLeft(job: Job, objects: set<string>, faults: Faults, k: string, a: string)
    requires Valid(job) && KeysApart(job.manifests) && Lists(job.manifests, k, a)
    ensures Stays(job, objects, faults, k, a) <==> a in objects && !ArtifactGoes(job, faults, a)
    ensures ArtifactGoes(job, faults, a) <==> Goes(job, objects, faults, a)
  {
    DoomIsOwn(job, k, a);
  }

  /** Exactly when: the lookup fails of every artifact that stays. */
  lemma StrandsIffUnseen(job: Job, objects: set<string>, faults: Faults, k: string)
    requires Valid(job) && KeysApart(job.manifests) && k in job.manifests
    ensures Strands(job, objects, faults, k) <==>
      && HasDoomed(job, k) && faults.Deletes(k)
      && (exists a :: Stays(job, objects, faults, k, a))
      && (forall a :: Stays(job, objects, faults, k, a) ==> a in faults.unseen)
  {
    ManifestIsNotDoomed(job, k);
    forall a | Lists(job.manifests, k, a)
      ensures Stays(job, objects, faults, k, a) <==> a in objects && !ArtifactGoes(job, faults, a)
      ensures ArtifactGoes(job, faults, a) <==> Goes(job, objects, faults, a)
    {
      StaysIsLeft(job, objects, faults, k, a);
    }
    if a :| Stays(job, objects, faults, k, a) {
      assert Lists(job.manifests, k, a);
    }
  }

  /** No later pruning, under any policy, removes an artifact whose manifest is gone. */
  lemma StrandedForGood(
    job: Job, k: string, a: string, later: Job, objects: set<string>, faults: Faults)
    requires Lists(job.manifests, k, a) && k !in later.manifests
    requires Valid(later) && KeysApart(later.manifests[k := job.manifests[k]])
    ensures !Goes(later, objects, faults, a)
  {
    ListedOnce(later.manifests, k, job.manifests[k], a);
    if j :| DoomedKey(later, j, a) {
      DoomedIsListed(later, j, a);
    }
  }

  lemma ListedOnce(manifests: Manifests, k: string, m: Manifest, a: string)
    requires k !in manifests && KeysApart(manifests[k := m]) && Lists(manifests[k := m], k, a)
    ensures a !in manifests && forall j :: !Lists(manifests, j, a)
  {
    var both := manifests[k := m];
    forall j
      ensures !Lists(manifests, j, a)
    {
      assert Lists(manifests, j, a) ==> Lists(both, j, a);
    }
  }

  // One old run with two artifacts; only the database dumps have an age bound, and the lookup of the
  // other artifact fails.

  function Bundle(run: string): seq<Entry> {
    [Entry("postgres", ArtifactKey("postgres", run)), Entry("files", ArtifactKey("files", run))]
  }

  function Lone(run: string): Job {
    Job(map["postgres" := Retention(None, Some(1))], [ManifestKey(run)],
        map[ManifestKey(run) := Manifest(run, Some(0), Bundle(run))], None, 2 * DAY, 2 * DAY)
  }

  lemma LoneKeysApart(run: string)
    ensures KeysApart(Lone(run).manifests)
  {
    var manifests := Lone(run).manifests;
    forall k, i | k in manifests && 0 <= i < |manifests[k].artifacts|
      ensures NamedEntry(manifests[k].artifacts[i], run)
    {
      assert i == 0 || i == 1;
    }
    RunsKeepKeysApart(manifests);
  }

  lemma LoneIsRanked(run: string)
    ensures Ranked(Lone(run), "postgres") == [ManifestKey(run)]
  {
    var k, manifests := ManifestKey(run), Lone(run).manifests;
    assert [k][..|[k]| - 1] == [] && NewestFirst([], manifests) == [];
    assert NewestFirst([k], manifests) == Insert([], k, manifests) == [k];
    assert KeyIn(Bundle(run), "postgres")[0] == 'p';
    assert Has(manifests, k, "postgres") && [k][1..] == [] && WithArtifact([], manifests, "postgres") == [];
    assert WithArtifact([k], manifests, "postgres") == [k];
  }

  /** Its manifest goes, and the artifact that was not seen is left without one. */
  lemma FailedLookupStrands(run: string)
    ensures var k, dump, files := ManifestKey(run), ArtifactKey("postgres", run), ArtifactKey("files", run);
            var objects, faults := {k, dump, files}, Faults({}, {}, {files});
            Strands(Lone(run), objects, faults, k) && !Goes(Lone(run), objects, faults, files)
  {
    var k, dump, files := ManifestKey(run), ArtifactKey("postgres", run), ArtifactKey("files", run);
    var job, objects, faults := Lone(run), {k, dump, files}, Faults({}, {}, {files});
    LoneKeysApart(run);
    LoneIsRanked(run);
    assert DoomedAt(job, "postgres", 0, k) && KeyIs(job, k, "postgres", dump);
    assert DoomedKey(job, k, dump);
    assert dump[0] != files[0] && Bundle(run)[1].key == files && Lists(job.manifests, k, files);
    forall a | Stays(job, objects, faults, k, a)
      ensures a == files
    {
    }
    assert Stays(job, objects, faults, k, files);
    StrandsIffUnseen(job, objects, faults, k);
    StaysIsLeft(job, objects, faults, k, files);
  }

  /** The runs that still have their artifact of the store. */
  ghost function Surviving(job: Job, objects: set<string>, faults: Faults, store: string): set<string> {
    set k | k in job.manifests && Has(job.manifests, k, store)
            && KeyIn(job.manifests[k].artifacts, store) in objects
            && !Goes(job, objects, faults, KeyIn(job.manifests[k].artifacts, store))
  }

  function ProtectedRuns(job: Job): set<string> {
    set k | k in job.manifests && Protected(job, k)
  }

  function Elements(keys: seq<string>): set<string> {
    set k | k in keys
  }

  lemma {:induction false} ElementsBounded(keys: seq<string>)
    ensures |Elements(keys)| <= |keys|
  {
    if keys != [] {
      var n := |keys| - 1;
      ElementsBounded(keys[..n]);
      assert keys == keys[..n] + [keys[n]];
      assert Elements(keys) == Elements(keys[..n]) + {keys[n]};
    }
  }

  lemma RankedLateGoes(job: Job, objects: set<string>, faults: Faults, store: string, rank: nat, k: string)
    requires Valid(job) && DoomedAt(job, store, rank, k)
    requires forall x :: !Refused(job, objects, faults, x) && !Breaks(job, objects, faults, x)
    ensures Goes(job, objects, faults, KeyIn(job.manifests[k].artifacts, store))
  {
    var a := KeyIn(job.manifests[k].artifacts, store);
    assert Doomed(job, store, k) && KeyIs(job, k, store, a);
    assert DoomedKey(job, k, a);
    assert !Refused(job, objects, faults, a) && !Breaks(job, objects, faults, a);
  }

  /** With no refusal or failure, at most the newest `keep` runs, and the protected one, keep a store's artifact. */
  lemma AtMostKeepSurvive(job: Job, objects: set<string>, faults: Faults, store: string, keep: nat)
    requires Valid(job) && store in job.retention && job.retention[store].keep == Some(keep)
    requires forall x :: !Refused(job, objects, faults, x) && !Breaks(job, objects, faults, x)
    ensures |Surviving(job, objects, faults, store)| <= keep + |ProtectedRuns(job)|
  {
    var ranked := Ranked(job, store);
    RankedIs(job, store);
    var newest := if |ranked| <= keep then ranked else ranked[..keep];
    var spared := Elements(newest) + ProtectedRuns(job);
    forall k | k in Surviving(job, objects, faults, store)
      ensures k in spared
    {
      var rank :| 0 <= rank < |ranked| && ranked[rank] == k;
      if rank < keep {
        assert newest[rank] == k;
      } else if !Protected(job, k) {
        RankedLateGoes(job, objects, faults, store, rank, k);
      }
    }
    SubsetSize(Surviving(job, objects, faults, store), spared);
    ElementsBounded(newest);
    assert |Elements(newest) + ProtectedRuns(job)| <= |Elements(newest)| + |ProtectedRuns(job)|;
  }

  // ----- Pruning again ---------------------------------------------------------------------------

  function Restrict(keys: seq<string>, left: set<string>): seq<string> {
    if keys == [] then []
    else if keys[0] in left then [keys[0]] + Restrict(keys[1..], left)
    else Restrict(keys[1..], left)
  }

  lemma RestrictCons(k: string, keys: seq<string>, left: set<string>)
    ensures Restrict([k] + keys, left) == if k in left then [k] + Restrict(keys, left) else Restrict(keys, left)
  {
    assert ([k] + keys)[1..] == keys;
  }

  lemma {:induction false} RestrictAppend(keys: seq<string>, k: string, left: set<string>)
    ensures Restrict(keys + [k], left) == if k in left then Restrict(keys, left) + [k] else Restrict(keys, left)
  {
    if keys == [] {
      assert keys + [k] == [k] && [k][1..] == [];
    } else {
      assert (keys + [k])[1..] == keys[1..] + [k];
      RestrictAppend(keys[1..], k, left);
    }
  }

  lemma {:induction false} RestrictMembers(keys: seq<string>, left: set<string>)
    ensures forall k :: k in Restrict(keys, left) <==> k in keys && k in left
  {
    if keys != [] {
      RestrictMembers(keys[1..], left);
      assert keys == [keys[0]] + keys[1..];
    }
  }

  /** An element at rank `r` of what is left stood at rank `r` or later. */
  lemma {:induction false} RestrictIndex(keys: seq<string>, left: set<string>, r: nat) returns (s: nat)
    requires r < |Restrict(keys, left)|
    ensures r <= s < |keys| && keys[s] == Restrict(keys, left)[r]
  {
    if keys[0] in left && r == 0 {
      s := 0;
    } else {
      s := RestrictIndex(keys[1..], left, if keys[0] in left then r - 1 else r);
      s := s + 1;
    }
  }

  predicate Alike(a: Manifests, b: Manifests, left: set<string>) {
    forall k :: k in left ==> k in a && k in b && a[k] == b[k]
  }

  lemma {:induction false} RestrictInsert(
    sorted: seq<string>, k: string, a: Manifests, b: Manifests, left: set<string>)
    requires Alike(a, b, left) && Descending(sorted, a)
    ensures Restrict(Insert(sorted, k, a), left) ==
            if k in left then Insert(Restrict(sorted, left), k, b) else Restrict(sorted, left)
  {
    if sorted != [] {
      var first, rest := sorted[0], sorted[1..];
      if Leq(RunOf(a, k), RunOf(a, first)) {
        RestrictInsert(rest, k, a, b, left);
        RestrictCons(first, Insert(rest, k, a), left);
        if first in left {
          assert ([first] + Restrict(rest, left))[1..] == Restrict(rest, left);
        }
      } else {
        RestrictCons(k, sorted, left);
        RestrictMembers(sorted, left);
        if k in left && Restrict(sorted, left) != [] {
          var head := Restrict(sorted, left)[0];
          assert head in sorted && head in left;
          NotBefore(sorted, k, head, a);
        }
      }
    }
  }

  lemma NotBefore(sorted: seq<string>, k: string, first: string, a: Manifests)
    requires Descending(sorted, a) && first in sorted && !Leq(RunOf(a, k), RunOf(a, sorted[0]))
    ensures !Leq(RunOf(a, k), RunOf(a, first))
  {
    var i :| 0 <= i < |sorted| && sorted[i] == first;
    if Leq(RunOf(a, k), RunOf(a, first)) && i > 0 {
      LeqTransitive(RunOf(a, k), RunOf(a, first), RunOf(a, sorted[0]));
    }
  }

  lemma {:induction false} RestrictSort(listing: seq<string>, a: Manifests, b: Manifests, left: set<string>)
    requires Alike(a, b, left) && Distinct(listing)
    ensures NewestFirst(Restrict(listing, left), b) == Restrict(NewestFirst(listing, a), left)
  {
    if listing != [] {
      var n := |listing| - 1;
      var front, last := listing[..n], listing[n];
      assert listing == front + [last];
      RestrictSort(front, a, b, left);
      RestrictAppend(front, last, left);
      NewestFirstSorts(front, a);
      RestrictInsert(NewestFirst(front, a), last, a, b, left);
      if last in left {
        assert (Restrict(front, left) + [last])[..|Restrict(front, left)|] == Restrict(front, left);
      }
    }
  }

  lemma {:induction false} RestrictWithArtifact(
    keys: seq<string>, a: Manifests, b: Manifests, left: set<string>, store: string)
    requires Alike(a, b, left)
    ensures WithArtifact(Restrict(keys, left), b, store) == Restrict(WithArtifact(keys, a, store), left)
  {
    if keys != [] {
      var first, rest := keys[0], keys[1..];
      RestrictWithArtifact(rest, a, b, left, store);
      if Has(a, first, store) {
        RestrictCons(first, WithArtifact(rest, a, store), left);
      }
      if first in left {
        assert ([first] + Restrict(rest, left))[1..] == Restrict(rest, left);
      }
    }
  }

  /** A later pruning of what the first left, with the same policy and `now` and a later wall clock. */
  function Again(job: Job, left: set<string>, wall: int): Job {
    job.(listing := Restrict(job.listing, left),
         manifests := map k | k in job.manifests && k in left :: job.manifests[k],
         wall := wall)
  }

  lemma RanksDrop(job: Job, left: set<string>, wall: int, store: string, rank: nat, k: string)
    requires Valid(job) && left <= job.manifests.Keys && job.wall <= wall
    requires DoomedAt(Again(job, left, wall), store, rank, k)
    ensures Doomed(job, store, k)
  {
    var later := Again(job, left, wall);
    var sorted := NewestFirst(job.listing, job.manifests);
    RestrictSort(job.listing, job.manifests, later.manifests, left);
    RestrictWithArtifact(sorted, job.manifests, later.manifests, left, store);
    var before := RestrictIndex(Ranked(job, store), left, rank);
    assert DoomedAt(job, store, before, k);
  }

  lemma DoomedBefore(job: Job, left: set<string>, wall: int, k: string, a: string)
    requires Valid(job) && left <= job.manifests.Keys && job.wall <= wall
    requires DoomedKey(Again(job, left, wall), k, a)
    ensures DoomedKey(job, k, a)
  {
    var later := Again(job, left, wall);
    var store :| Doomed(later, store, k) && KeyIs(later, k, store, a);
    var rank :| DoomedAt(later, store, rank, k);
    RanksDrop(job, left, wall, store, rank, k);
    assert KeyIs(job, k, store, a);
  }

  /** The objects and the manifests left by a pruning. */
  ghost predicate LeftBy(job: Job, objects: set<string>, faults: Faults, after: set<string>, left: set<string>) {
    && (forall x :: x in after <==> x in objects && !Goes(job, objects, faults, x))
    && (forall k :: k in left <==> k in job.manifests && k in after)
  }

  /** A second pruning at the same `now` removes nothing more. */
  lemma PruningTwice(
    job: Job, objects: set<string>, faults: Faults, after: set<string>, left: set<string>, wall: int, x: string)
    requires Valid(job) && KeysApart(job.manifests) && job.manifests.Keys <= objects && job.wall <= wall
    requires LeftBy(job, objects, faults, after, left) && x in after
    ensures !Goes(Again(job, left, wall), after, faults, x)
  {
    var later := Again(job, left, wall);
    if k :| DoomedKey(later, k, x) {
      DoomedBefore(job, left, wall, k, x);
    }
    if a :| DoomedKey(later, x, a) {
      DoomedBefore(job, left, wall, x, a);
      if faults.Deletes(x) && x in job.manifests {
        assert LeftOver(job, objects, faults, x);
        StillLeftOver(job, objects, faults, after, left, wall, x);
      }
    }
  }

  lemma StillLeftOver(
    job: Job, objects: set<string>, faults: Faults, after: set<string>, left: set<string>, wall: int, k: string)
    requires Valid(job) && KeysApart(job.manifests) && job.wall <= wall
    requires LeftBy(job, objects, faults, after, left) && k in left && LeftOver(job, objects, faults, k)
    ensures LeftOver(Again(job, left, wall), after, faults, k)
  {
    var later := Again(job, left, wall);
    var a :| Lists(job.manifests, k, a) && a in objects && a !in faults.unseen && !ArtifactGoes(job, faults, a);
    assert Lists(later.manifests, k, a);
    assert a in after;
    if j :| DoomedKey(later, j, a) {
      DoomedBefore(job, left, wall, j, a);
    }
  }
}
