/** Release packages and their "latest" pointers (manage/releases/store.py:116-214). */
module Releases {
  import opened Shared

  datatype Line = Line(artifact: string, channel: string, platform: string)

  datatype Key = Key(line: Line, version: string)

  datatype Package = Package(
    published: bool, latest: bool, createdAt: int, updatedAt: int, publishedAt: Option<int>, payload: Text)

  type Packages = map<Key, Package>

  // ----------------------------------------------------------------- the store

  predicate LatestAt(s: Packages, k: Key) {
    k in s && s[k].latest
  }

  /** Every package of a line but one version loses the pointer. */
  function ClearLatest(s: Packages, line: Line, except: string): Packages {
    map k | k in s :: if k.line == line && k.version != except then s[k].(latest := false) else s[k]
  }

  /** A first publication is dated now; an old one without a date takes its last update. */
  function Published(p: Package, now: int): Package {
    if !p.published then p.(published := true, publishedAt := Some(now), updatedAt := now)
    else if p.publishedAt == None then p.(publishedAt := Some(p.updatedAt), updatedAt := now)
    else p.(updatedAt := now)
  }

  datatype Op =
    | CreateDraft(key: Key, payload: Text, now: int)
    | Publish(key: Key, now: int, setLatest: bool)
    | Promote(key: Key, now: int)
    | Delete(key: Key)

  function Step(s: Packages, op: Op): Packages {
    match op
    case CreateDraft(k, payload, now) =>
      if k in s && s[k].published then s
      else s[k := Package(false, false, if k in s then s[k].createdAt else now, now, None, payload)]
    case Publish(k, now, setLatest) =>
      if k !in s then s
      else if setLatest then ClearLatest(s, k.line, k.version)[k := Published(s[k], now).(latest := true)]
      else s[k := Published(s[k], now)]
    case Promote(k, now) =>
      if k !in s || !s[k].published then s
      else ClearLatest(s, k.line, k.version)[k := s[k].(latest := true, updatedAt := now)]
    case Delete(k) =>
      if k !in s || s[k].latest then s else s - {k}
  }

  /** The outcomes a caller sees. */
  datatype Outcome = Done | NotFound | AlreadyPublished | IsLatest

  function Result(s: Packages, op: Op): Outcome {
    match op
    case CreateDraft(k, _, _) => if k in s && s[k].published then AlreadyPublished else Done
    case Publish(k, _, _) => if k !in s then NotFound else Done
    case Promote(k, _) => if k !in s || !s[k].published then NotFound else Done
    case Delete(k) => if k !in s then NotFound else if s[k].latest then IsLatest else Done
  }

  class ReleasePackageStore {
    var packages: Packages

    constructor ()
      ensures packages == map[]
    {
      packages := map[];
    }

    method ClearOthers(line: Line, except: string)
      modifies this
      ensures packages == ClearLatest(old(packages), line, except)
    {
      ghost var before := packages;
      var todo := packages.Keys;
      while todo != {}
        invariant packages.Keys == before.Keys && todo <= packages.Keys
        invariant forall k :: k in todo ==> packages[k] == before[k]
        invariant forall k :: k in before && k !in todo ==> packages[k] == ClearLatest(before, line, except)[k]
        decreases |todo|
      {
        var k :| k in todo;
        if k.line == line && packages[k].latest && k.version != except {
          packages := packages[k := packages[k].(latest := false)];
        }
        todo := todo - {k};
      }
      assert packages == ClearLatest(before, line, except);
    }

    method SaveDraft(k: Key, payload: Text, now: int) returns (outcome: Outcome)
      modifies this
      ensures packages == Step(old(packages), CreateDraft(k, payload, now))
      ensures outcome == Result(old(packages), CreateDraft(k, payload, now))
    {
      var created := now;
      if k in packages {
        if packages[k].published {
          return AlreadyPublished;
        }
        created := packages[k].createdAt;
      }
      packages := packages[k := Package(false, false, created, now, None, payload)];
      return Done;
    }

    method MakePublished(k: Key, now: int, setLatest: bool) returns (outcome: Outcome)
      modifies this
      ensures packages == Step(old(packages), Publish(k, now, setLatest))
      ensures outcome == Result(old(packages), Publish(k, now, setLatest))
    {
      if k !in packages {
        return NotFound;
      }
      var p := packages[k];
      if !p.published {
        p := p.(published := true, publishedAt := Some(now));
      } else if p.publishedAt == None {
        p := p.(publishedAt := Some(p.updatedAt));
      }
      p := p.(updatedAt := now);
      if setLatest {
        ClearOthers(k.line, k.version);
        p := p.(latest := true);
      }
      packages := packages[k := p];
      return Done;
    }

    method MakeLatest(k: Key, now: int) returns (outcome: Outcome)
      modifies this
      ensures packages == Step(old(packages), Promote(k, now))
      ensures outcome == Result(old(packages), Promote(k, now))
    {
      if k !in packages || !packages[k].published {
        return NotFound;
      }
      var p := packages[k].(latest := true, updatedAt := now);
      ClearOthers(k.line, k.version);
      packages := packages[k := p];
      return Done;
    }

    method Remove(k: Key) returns (outcome: Outcome)
      modifies this
      ensures packages == Step(old(packages), Delete(k))
      ensures outcome == Result(old(packages), Delete(k))
    {
      if k !in packages {
        return NotFound;
      }
      if packages[k].latest {
        return IsLatest;
      }
      packages := packages - {k};
      return Done;
    }

    /** Any published latest package of the line. */
    method GetLatest(line: Line) returns (latest: Option<Key>)
      ensures latest.Some? ==> LatestAt(packages, latest.value) && packages[latest.value].published && latest.value.line == line
      ensures latest.None? ==> forall k :: LatestAt(packages, k) && packages[k].published ==> k.line != line
    {
      var matches := set k | k in packages && k.line == line && packages[k].published && packages[k].latest;
      if matches == {} {
        assert forall k :: LatestAt(packages, k) && packages[k].published && k.line == line ==> k in matches;
        return None;
      }
      var k :| k in matches;
      return Some(k);
    }
  }

  // -------------------------------------------------------------------- every run

  ghost predicate AtMostOneLatest(s: Packages) {
    forall j, k :: LatestAt(s, j) && LatestAt(s, k) && j.line == k.line ==> j == k
  }

  ghost predicate LatestIsPublished(s: Packages) {
    forall k :: LatestAt(s, k) ==> s[k].published
  }

  ghost predicate Inv(s: Packages) {
    AtMostOneLatest(s) && LatestIsPublished(s)
  }

  ghost predicate HasLatest(s: Packages, line: Line) {
    exists k :: LatestAt(s, k) && k.line == line
  }

  function Run(s: Packages, ops: seq<Op>): Packages
    decreases |ops|
  {
    if |ops| == 0 then s else Run(Step(s, ops[0]), ops[1..])
  }

  /** A run performs its operations one after the other. */
  lemma {:induction false} RunInOrder(s: Packages, ops: seq<Op>, more: seq<Op>, op: Op)
    ensures Run(s, ops + more) == Run(Run(s, ops), more) && Run(s, [op]) == Step(s, op)
    decreases |ops|
  {
    assert [op][1..] == [];
    if |ops| == 0 {
      assert ops + more == more;
    } else {
      assert (ops + more)[1..] == ops[1..] + more;
      RunInOrder(Step(s, ops[0]), ops[1..], more, op);
    }
  }

  lemma PointerMoves(s: Packages, k: Key, p: Package)
    requires Inv(s) && p.latest && p.published
    ensures Inv(ClearLatest(s, k.line, k.version)[k := p])
  {
    var t := ClearLatest(s, k.line, k.version)[k := p];
    forall i, j | LatestAt(t, i) && LatestAt(t, j) && i.line == j.line ensures i == j {
      assert i == k || LatestAt(s, i);
      assert j == k || LatestAt(s, j);
    }
    forall j | LatestAt(t, j) ensures t[j].published {
      assert j == k || LatestAt(s, j);
    }
  }

  lemma Replaced(s: Packages, k: Key, p: Package)
    requires Inv(s) && (p.latest ==> LatestAt(s, k) && p.published)
    ensures Inv(s[k := p])
  {
    var t := s[k := p];
    forall j | LatestAt(t, j) ensures LatestAt(s, j) && t[j].published {
    }
  }

  lemma StepKeepsInv(s: Packages, op: Op)
    requires Inv(s)
    ensures Inv(Step(s, op))
  {
    match op
    case CreateDraft(k, payload, now) =>
      if !(k in s && s[k].published) {
        Replaced(s, k, Step(s, op)[k]);
      }
    case Publish(k, now, setLatest) =>
      if k in s {
        if setLatest {
          PointerMoves(s, k, Published(s[k], now).(latest := true));
        } else {
          Replaced(s, k, Published(s[k], now));
        }
      }
    case Promote(k, now) =>
      if k in s && s[k].published {
        PointerMoves(s, k, s[k].(latest := true, updatedAt := now));
      }
    case Delete(k) =>
      forall j | LatestAt(Step(s, op), j) ensures LatestAt(s, j) {
      }
  }

  /** What a publish and a promote do to their own package and to every other: the package is
      published, dated once, and latest if asked; others of its line lose the pointer then. */
  lemma OwnPackage(s: Packages, op: Op)
    requires (op.Publish? || op.Promote?) && Result(s, op) == Done
    ensures var k, t, points := op.key, Step(s, op), op.Promote? || op.setLatest;
      && k in s && t.Keys == s.Keys
      && t[k].published && t[k].latest == (points || s[k].latest) && t[k].updatedAt == op.now
      && t[k].createdAt == s[k].createdAt && t[k].payload == s[k].payload
      && (op.Publish? && !s[k].published ==> t[k].publishedAt == Some(op.now))
      && (op.Publish? && s[k].published ==>
            t[k].publishedAt == if s[k].publishedAt == None then Some(s[k].updatedAt) else s[k].publishedAt)
      && (op.Promote? ==> t[k].publishedAt == s[k].publishedAt && s[k].published)
      && (forall j :: j in s && j != k ==> t[j] == s[j].(latest := s[j].latest && !(points && j.line == k.line)))
  {
    forall j | j in s && j != op.key
      ensures Step(s, op)[j] == s[j].(latest := s[j].latest && !((op.Promote? || op.setLatest) && j.line == op.key.line))
    {
      assert j.line == op.key.line ==> j.version != op.key.version;
    }
  }

  /** A draft and a deletion touch no other package; a draft is unpublished and keeps its
      first date of creation. */
  lemma DraftsAndDeletions(s: Packages, op: Op)
    requires op.CreateDraft? || op.Delete?
    ensures var k, t := op.key, Step(s, op);
      && (Result(s, op) != Done ==> t == s)
      && (Result(s, op) == Done && op.Delete? ==> t == s - {k})
      && (Result(s, op) == Done && op.CreateDraft? ==>
            t == s[k := Package(false, false, if k in s then s[k].createdAt else op.now, op.now, None, op.payload)])
    ensures Result(s, op) == (if op.Delete? && op.key !in s then NotFound
                              else if op.Delete? && s[op.key].latest then IsLatest
                              else if op.CreateDraft? && op.key in s && s[op.key].published then AlreadyPublished
                              else Done)
  {
  }

  /** In every reachable state each line has at most one latest, and it is published. */
  lemma {:induction false} RunKeepsInv(s: Packages, ops: seq<Op>)
    requires Inv(s)
    ensures Inv(Run(s, ops))
    decreases |ops|
  {
    if |ops| > 0 {
      StepKeepsInv(s, ops[0]);
      RunKeepsInv(Step(s, ops[0]), ops[1..]);
    }
  }

  /** Which package holds the pointer of a line after one step. */
  lemma StepKeepsLatest(s: Packages, op: Op, k: Key)
    requires Inv(s) && LatestAt(s, k)
    ensures LatestAt(Step(s, op), k) <==>
      !((op.Promote? || (op.Publish? && op.setLatest)) && Result(s, op) == Done && op.key.line == k.line && op.key != k)
    ensures !LatestAt(Step(s, op), k) ==> LatestAt(Step(s, op), op.key)
  {
  }

  /** A line that once has a latest release has one in every later state. */
  lemma {:induction false} LatestNeverDisappears(s: Packages, ops: seq<Op>, line: Line)
    requires Inv(s) && HasLatest(s, line)
    ensures HasLatest(Run(s, ops), line)
    decreases |ops|
  {
    if |ops| > 0 {
      var k :| LatestAt(s, k) && k.line == line;
      StepKeepsLatest(s, ops[0], k);
      StepKeepsInv(s, ops[0]);
      LatestNeverDisappears(Step(s, ops[0]), ops[1..], line);
    }
  }

  // ------------------------------------------------------------ publication dates

  predicate Dated(s: Packages, k: Key, date: int) {
    k in s && s[k].published && s[k].publishedAt == Some(date)
  }

  predicate Deletes(op: Op, k: Key) {
    op.Delete? && op.key == k
  }

  lemma StepKeepsDate(s: Packages, op: Op, k: Key, date: int)
    requires Dated(s, k, date)
    ensures Dated(Step(s, op), k, date) <==> !(Deletes(op, k) && !s[k].latest)
  {
  }

  /** A published package keeps its publication date and stays published until deleted. */
  lemma {:induction false} RunKeepsDate(s: Packages, ops: seq<Op>, k: Key, date: int)
    requires Dated(s, k, date) && forall op <- ops :: !Deletes(op, k)
    ensures Dated(Run(s, ops), k, date)
    decreases |ops|
  {
    if |ops| > 0 {
      assert ops[0] in ops;
      StepKeepsDate(s, ops[0], k, date);
      RunKeepsDate(Step(s, ops[0]), ops[1..], k, date);
    }
  }
}
