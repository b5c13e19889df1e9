/** Version order (manage/releases/semver.py:20-41) and the order of release listings
    (manage/releases/store.py:104-112). A comparison is -1, 0 or 1. */
module Versions {

  /** A parsed version: the numbers before the first "-", and the lower-case text after it. */
  datatype Version = Version(parts: seq<nat>, pre: string)

  function Sign(n: int): int {
    if n < 0 then -1 else if n > 0 then 1 else 0
  }

  function Then(x: int, y: int): int {
    if x != 0 then x else y
  }

  /** Python's order on strings. */
  function CompareText(a: string, b: string): int {
    if |a| == 0 || |b| == 0 then Sign(|a| - |b|)
    else Then(Sign(a[0] as int - b[0] as int), CompareText(a[1..], b[1..]))
  }

  function First(parts: seq<nat>): nat {
    if |parts| > 0 then parts[0] else 0
  }

  function Rest(parts: seq<nat>): seq<nat> {
    if |parts| > 0 then parts[1..] else []
  }

  /** Lexicographic, the shorter one padded with zeros. */
  function CompareParts(a: seq<nat>, b: seq<nat>): int
    decreases |a| + |b|
  {
    if |a| == 0 && |b| == 0 then 0
    else Then(Sign(First(a) - First(b)), CompareParts(Rest(a), Rest(b)))
  }

  /** No prerelease comes after every prerelease. */
  function ComparePre(a: string, b: string): int {
    if a == b then 0 else if a == "" then 1 else if b == "" then -1 else CompareText(a, b)
  }

  function Compare(a: Version, b: Version): int {
    Then(CompareParts(a.parts, b.parts), ComparePre(a.pre, b.pre))
  }

  method CompareVersions(left: Version, right: Version) returns (r: int)
    ensures r == Compare(left, right)
  {
    var lp, rp := left.parts, right.parts;
    var n := if |lp| > |rp| then |lp| else |rp|;
    for i := 0 to n
      invariant CompareParts(lp, rp) == CompareParts(Drop(lp, i), Drop(rp, i))
    {
      var lv := if i < |lp| then lp[i] else 0;
      var rv := if i < |rp| then rp[i] else 0;
      DropStep(lp, i);
      DropStep(rp, i);
      if lv < rv {
        return -1;
      }
      if lv > rv {
        return 1;
      }
    }
    assert CompareParts(lp, rp) == 0;
    if left.pre == right.pre {
      return 0;
    }
    if left.pre == "" {
      return 1;
    }
    if right.pre == "" {
      return -1;
    }
    TextSigns(left.pre, right.pre);
    TextRange(left.pre, right.pre);
    if CompareText(left.pre, right.pre) < 0 {
      return -1;
    }
    return 1;
  }

  function Drop(parts: seq<nat>, i: nat): seq<nat> {
    if i <= |parts| then parts[i..] else []
  }

  lemma DropStep(parts: seq<nat>, i: nat)
    ensures Drop(parts, 0) == parts
    ensures First(Drop(parts, i)) == (if i < |parts| then parts[i] else 0) && Rest(Drop(parts, i)) == Drop(parts, i + 1)
  {
  }

  // ------------------------------------------------------------- total preorders

  /** What the three comparisons of a, b and c satisfy under a total preorder. */
  predicate Consistent(ab: int, bc: int, ac: int) {
    -1 <= ab <= 1 && -1 <= bc <= 1 && -1 <= ac <= 1 &&
    (ab <= 0 && bc <= 0 ==> ac <= 0 && (ac == 0 ==> ab == 0 && bc == 0)) &&
    (ab >= 0 && bc >= 0 ==> ac >= 0 && (ac == 0 ==> ab == 0 && bc == 0))
  }

  lemma ThenConsistent(ab: int, bc: int, ac: int, pq: int, qr: int, pr: int)
    requires Consistent(ab, bc, ac) && Consistent(pq, qr, pr)
    ensures Consistent(Then(ab, pq), Then(bc, qr), Then(ac, pr))
  {
  }

  lemma SignConsistent(a: int, b: int, c: int)
    ensures Consistent(Sign(a - b), Sign(b - c), Sign(a - c))
  {
  }

  lemma {:induction false} TextSigns(a: string, b: string)
    ensures CompareText(a, b) == -CompareText(b, a) && (CompareText(a, b) == 0 <==> a == b)
  {
    if |a| > 0 && |b| > 0 {
      TextSigns(a[1..], b[1..]);
      assert a == [a[0]] + a[1..] && b == [b[0]] + b[1..];
    }
  }

  lemma {:induction false} TextConsistent(a: string, b: string, c: string)
    ensures Consistent(CompareText(a, b), CompareText(b, c), CompareText(a, c))
  {
    if |a| > 0 && |b| > 0 && |c| > 0 {
      TextConsistent(a[1..], b[1..], c[1..]);
      SignConsistent(a[0] as int, b[0] as int, c[0] as int);
    } else {
      TextRange(a, b);
      TextRange(b, c);
      TextRange(a, c);
    }
  }

  lemma {:induction false} TextRange(a: string, b: string)
    ensures -1 <= CompareText(a, b) <= 1
  {
    if |a| > 0 && |b| > 0 {
      TextRange(a[1..], b[1..]);
    }
  }

  lemma {:induction false} PartsConsistent(a: seq<nat>, b: seq<nat>, c: seq<nat>)
    ensures Consistent(CompareParts(a, b), CompareParts(b, c), CompareParts(a, c))
    decreases |a| + |b| + |c|
  {
    if |a| + |b| + |c| > 0 {
      PartsConsistent(Rest(a), Rest(b), Rest(c));
      SignConsistent(First(a), First(b), First(c));
      ThenConsistent(
        Sign(First(a) - First(b)), Sign(First(b) - First(c)), Sign(First(a) - First(c)),
        CompareParts(Rest(a), Rest(b)), CompareParts(Rest(b), Rest(c)), CompareParts(Rest(a), Rest(c)));
    }
  }

  lemma PreConsistent(a: string, b: string, c: string)
    ensures Consistent(ComparePre(a, b), ComparePre(b, c), ComparePre(a, c))
  {
    TextConsistent(a, b, c);
    TextSigns(a, b);
    TextSigns(b, c);
    TextSigns(a, c);
  }

  /** Version comparison is transitive, strictly so wherever one of its steps is strict. */
  lemma CompareConsistent(a: Version, b: Version, c: Version)
    ensures Consistent(Compare(a, b), Compare(b, c), Compare(a, c))
  {
    PartsConsistent(a.parts, b.parts, c.parts);
    PreConsistent(a.pre, b.pre, c.pre);
    ThenConsistent(
      CompareParts(a.parts, b.parts), CompareParts(b.parts, c.parts), CompareParts(a.parts, c.parts),
      ComparePre(a.pre, b.pre), ComparePre(b.pre, c.pre), ComparePre(a.pre, c.pre));
  }

  lemma {:induction false} PartsSigns(a: seq<nat>, b: seq<nat>)
    ensures CompareParts(a, b) == -CompareParts(b, a)
    decreases |a| + |b|
  {
    if |a| + |b| > 0 {
      PartsSigns(Rest(a), Rest(b));
    }
  }

  /** Swapping the arguments flips the sign; 0 means equal after padding with zeros. */
  lemma CompareSigns(a: Version, b: Version)
    ensures Compare(a, b) == -Compare(b, a)
    ensures Compare(a, b) == 0 <==> CompareParts(a.parts, b.parts) == 0 && a.pre == b.pre
  {
    PartsSigns(a.parts, b.parts);
    TextSigns(a.pre, b.pre);
  }

  function Part(a: seq<nat>, i: nat): nat {
    if i < |a| then a[i] else 0
  }

  ghost predicate SameUpTo(a: seq<nat>, b: seq<nat>, n: nat) {
    forall j: nat :: j < n ==> Part(a, j) == Part(b, j)
  }

  /** Before: at the first place where the padded numbers differ, the left one is smaller. */
  ghost predicate Before(a: seq<nat>, b: seq<nat>, i: nat) {
    SameUpTo(a, b, i) && Part(a, i) < Part(b, i)
  }

  lemma RestPart(a: seq<nat>, i: nat)
    ensures Part(Rest(a), i) == Part(a, i + 1)
  {
  }

  lemma {:induction false} BeforeFound(a: seq<nat>, b: seq<nat>) returns (i: nat)
    ensures CompareParts(a, b) < 0 ==> Before(a, b, i)
    ensures CompareParts(a, b) == 0 ==> forall j: nat :: Part(a, j) == Part(b, j)
    decreases |a| + |b|
  {
    i := 0;
    if |a| + |b| > 0 && First(a) == First(b) {
      var k := BeforeFound(Rest(a), Rest(b));
      i := k + 1;
      RestPart(a, k);
      RestPart(b, k);
      forall j: nat | CompareParts(a, b) == 0 || j < i ensures Part(a, j) == Part(b, j) || CompareParts(a, b) > 0 {
        if j > 0 {
          RestPart(a, j - 1);
          RestPart(b, j - 1);
        }
      }
    }
  }

  lemma {:induction false} BeforeCompares(a: seq<nat>, b: seq<nat>, i: nat)
    requires Before(a, b, i)
    ensures CompareParts(a, b) == -1
    decreases i
  {
    if i > 0 {
      assert Part(a, 0) == Part(b, 0);
      forall j: nat | j < i - 1 ensures Part(Rest(a), j) == Part(Rest(b), j) {
        RestPart(a, j);
        RestPart(b, j);
      }
      RestPart(a, i - 1);
      RestPart(b, i - 1);
      BeforeCompares(Rest(a), Rest(b), i - 1);
    }
  }

  /** The numbers compare as less exactly when the first difference says so, and as equal
      exactly when there is no difference. */
  lemma ComparePartsExactly(a: seq<nat>, b: seq<nat>)
    ensures CompareParts(a, b) < 0 <==> exists i :: Before(a, b, i)
    ensures CompareParts(a, b) == 0 <==> forall i: nat :: Part(a, i) == Part(b, i)
  {
    var i := BeforeFound(a, b);
    var k := BeforeFound(b, a);
    PartsSigns(a, b);
    if CompareParts(a, b) >= 0 {
      forall j | Before(a, b, j) ensures false {
        BeforeCompares(a, b, j);
      }
    }
  }

  // -------------------------------------------------------------- release listings

  datatype Row = Row(platform: string, channel: string, artifact: string, version: Version, updatedAt: int)

  function CompareGroup(l: Row, r: Row): int {
    Then(CompareText(l.platform, r.platform), Then(CompareText(l.channel, r.channel), CompareText(l.artifact, r.artifact)))
  }

  /** By group, then the newest version first, then the latest update first. */
  function CompareRows(l: Row, r: Row): int {
    Then(CompareGroup(l, r), Then(Compare(r.version, l.version), Sign(r.updatedAt - l.updatedAt)))
  }

  lemma GroupConsistent(a: Row, b: Row, c: Row)
    ensures Consistent(CompareGroup(a, b), CompareGroup(b, c), CompareGroup(a, c))
  {
    TextConsistent(a.platform, b.platform, c.platform);
    TextConsistent(a.channel, b.channel, c.channel);
    TextConsistent(a.artifact, b.artifact, c.artifact);
  }

  lemma Flip(ab: int, bc: int, ac: int)
    requires Consistent(ab, bc, ac)
    ensures Consistent(-ab, -bc, -ac)
  {
  }

  /** The listing comparator is a total preorder as well. */
  lemma RowsConsistent(a: Row, b: Row, c: Row)
    ensures Consistent(CompareRows(a, b), CompareRows(b, c), CompareRows(a, c))
  {
    GroupConsistent(a, b, c);
    CompareConsistent(a.version, b.version, c.version);
    CompareSigns(a.version, b.version);
    CompareSigns(b.version, c.version);
    CompareSigns(a.version, c.version);
    Flip(Compare(a.version, b.version), Compare(b.version, c.version), Compare(a.version, c.version));
    SignConsistent(-a.updatedAt, -b.updatedAt, -c.updatedAt);
    ThenConsistent(
      Compare(b.version, a.version), Compare(c.version, b.version), Compare(c.version, a.version),
      Sign(b.updatedAt - a.updatedAt), Sign(c.updatedAt - b.updatedAt), Sign(c.updatedAt - a.updatedAt));
  }

  lemma RowsSigns(a: Row, b: Row)
    ensures CompareRows(a, b) == -CompareRows(b, a)
  {
    TextSigns(a.platform, b.platform);
    TextSigns(a.channel, b.channel);
    TextSigns(a.artifact, b.artifact);
    CompareSigns(a.version, b.version);
  }

  /** A listing whose neighbours are in order is in order throughout. */
  lemma {:induction false} NeighboursSuffice(rows: seq<Row>, i: nat, j: nat)
    requires forall k :: 0 <= k < |rows| - 1 ==> CompareRows(rows[k], rows[k + 1]) <= 0
    requires i < j < |rows|
    ensures CompareRows(rows[i], rows[j]) <= 0
    decreases j - i
  {
    if i + 1 < j {
      NeighboursSuffice(rows, i, j - 1);
      RowsConsistent(rows[i], rows[j - 1], rows[j]);
    }
  }

  /** So the first row of a group has the greatest version in it. */
  lemma NewestFirst(rows: seq<Row>, i: nat, j: nat)
    requires forall k :: 0 <= k < |rows| - 1 ==> CompareRows(rows[k], rows[k + 1]) <= 0
    requires i < j < |rows| && CompareGroup(rows[i], rows[j]) == 0
    ensures Compare(rows[i].version, rows[j].version) >= 0
  {
    NeighboursSuffice(rows, i, j);
    CompareSigns(rows[i].version, rows[j].version);
  }

  // ------------------------------------------------------- prereleases and text

  /** Of two versions with equal numbers the release comes after every prerelease, and
      prereleases are ordered as texts. */
  lemma ReleaseAfterPrereleases(a: Version, b: Version)
    requires CompareParts(a.parts, b.parts) == 0
    ensures a.pre == "" && b.pre != "" ==> Compare(a, b) == 1
    ensures a.pre != "" && b.pre == "" ==> Compare(a, b) == -1
    ensures a.pre != "" && b.pre != "" ==> Compare(a, b) == CompareText(a.pre, b.pre)
    ensures Compare(a, b) == 0 <==> a.pre == b.pre
  {
    TextSigns(a.pre, b.pre);
  }

  /** The first character in which two texts differ decides; a text comes before what
      continues it. */
  lemma {:induction false} CompareTextExactly(a: string, b: string, i: nat)
    requires i <= |a| && i <= |b| && a[..i] == b[..i]
    requires i < |a| && i < |b| ==> a[i] != b[i]
    ensures i < |a| && i < |b| ==> (CompareText(a, b) == if a[i] < b[i] then -1 else 1)
    ensures i == |a| < |b| ==> CompareText(a, b) == -1
    ensures i == |b| < |a| ==> CompareText(a, b) == 1
  {
    if i > 0 {
      assert a[0] == a[..i][0] == b[..i][0] == b[0];
      assert a[1..][..i - 1] == a[..i][1..] == b[..i][1..] == b[1..][..i - 1];
      CompareTextExactly(a[1..], b[1..], i - 1);
    }
  }
}
