/** The status server's choice of a chat server, and the balance it gives. */
module Allocator {
  import opened Sessions

  const INT64_MAX: int := 0x7FFF_FFFF_FFFF_FFFF

  type int64 = x: int | -INT64_MAX - 1 <= x <= INT64_MAX

  /** The order of std::map<std::string, ...>: byte by byte, a prefix first. */
  predicate Before(a: string, b: string) {
    b != [] && (a == [] || a[0] < b[0] || (a[0] == b[0] && Before(a[1..], b[1..])))
  }

  lemma BeforeIsTotal(a: string, b: string)
    ensures (Before(a, b) || a == b || Before(b, a)) && !(Before(a, b) && Before(b, a)) && !Before(a, a)
  {
    if a != [] && b != [] && a[0] == b[0] {
      BeforeIsTotal(a[1..], b[1..]);
      assert a == [a[0]] + a[1..] && b == [b[0]] + b[1..];
    }
    if a != [] {
      BeforeIsTotal(a[1..], a[1..]);
    }
  }

  lemma BeforeIsTransitive(a: string, b: string, c: string)
    requires Before(a, b) && Before(b, c)
    ensures Before(a, c)
  {
    if a != [] && a[0] == b[0] && b[0] == c[0] {
      BeforeIsTransitive(a[1..], b[1..], c[1..]);
    }
  }

  /** `a` and `b` agree up to position k, where a ends or has the smaller character. */
  predicate DifferAt(a: string, b: string, k: nat) {
    && k <= |a| && k < |b| && a[..k] == b[..k]
    && (k == |a| || (k < |a| && a[k] < b[k]))
  }

  ghost predicate Precedes(a: string, b: string) { exists k: nat :: DifferAt(a, b, k) }

  lemma {:induction false} BeforeIff(a: string, b: string)
    ensures Before(a, b) <==> Precedes(a, b)
  {
    if b == [] {
    } else if a == [] || a[0] < b[0] {
      assert DifferAt(a, b, 0);
    } else if a[0] == b[0] {
      BeforeIff(a[1..], b[1..]);
      if Precedes(a[1..], b[1..]) {
        var k: nat :| DifferAt(a[1..], b[1..], k);
        assert a[..k + 1] == [a[0]] + a[1..][..k] && b[..k + 1] == [b[0]] + b[1..][..k];
        assert DifferAt(a, b, k + 1);
      }
      if Precedes(a, b) {
        var k: nat :| DifferAt(a, b, k);
        assert k > 0 && a[1..][..k - 1] == a[..k][1..] && b[1..][..k - 1] == b[..k][1..];
        assert DifferAt(a[1..], b[1..], k - 1);
      }
    } else {
      forall k: nat ensures !DifferAt(a, b, k) {
        assert k > 0 && k <= |a| && k < |b| ==> a[..k][0] == a[0] && b[..k][0] == b[0];
      }
    }
  }

  // ---------- The choice ----------

  function CountOf(counts: map<string, int64>, name: string): int64 {
    if name in counts then counts[name] else 0
  }

  /** Server `i` comes before server `j`: a smaller count, or the same count and an earlier name; of equal names, the
      later position. */
  ghost predicate Preferred(servers: seq<string>, counts: map<string, int64>, i: nat, j: nat)
    requires i < |servers| && j < |servers|
  {
    var x, y := CountOf(counts, servers[i]), CountOf(counts, servers[j]);
    x < y || (x == y && (Precedes(servers[i], servers[j]) || (servers[i] == servers[j] && j <= i)))
  }

  /** What get_server_index returns: the first server when the hash is empty or no count is below the largest int64, else
      the preferred one. */
  ghost predicate IsChoice(servers: seq<string>, counts: map<string, int64>, index: nat) {
    if counts == map[] || forall i :: 0 <= i < |servers| ==> CountOf(counts, servers[i]) == 0x7FFF_FFFF_FFFF_FFFF then index == 0
    else index < |servers| && forall j: nat :: j < |servers| ==> Preferred(servers, counts, index, j)
  }

  lemma ChoiceIsUnique(servers: seq<string>, counts: map<string, int64>, i: nat, j: nat)
    requires IsChoice(servers, counts, i) && IsChoice(servers, counts, j)
    ensures i == j
  {
    hide Before, Precedes;
    if i < |servers| && j < |servers| {
      BeforeIsTotal(servers[i], servers[j]);
      BeforeIff(servers[i], servers[j]);
      BeforeIff(servers[j], servers[i]);
      if i != 0 || j != 0 {
        assert Preferred(servers, counts, i, j) && Preferred(servers, counts, j, i);
      }
    }
  }

  /** With equal counts the first of the two configured servers is chosen. */
  lemma TieOfTheTwo(counts: map<string, int64>, index: nat)
    requires CountOf(counts, "chat_server1") == CountOf(counts, "chat_server2")
    ensures IsChoice(["chat_server1", "chat_server2"], counts, index) <==> index == 0
  {
    var servers := ["chat_server1", "chat_server2"];
    assert DifferAt(servers[0], servers[1], 11);
    assert Preferred(servers, counts, 0, 0) && Preferred(servers, counts, 0, 1);
    if IsChoice(servers, counts, index) {
      ChoiceIsUnique(servers, counts, 0, index);
    }
  }

  lemma EmptyHash(servers: seq<string>)
    ensures IsChoice(servers, map[], 0)
  {
  }

  datatype Entry = Entry(name: string, index: nat, count: int64)

  ghost predicate Sorted(entries: seq<Entry>) {
    forall i, j :: 0 <= i < j < |entries| ==> Before(entries[i].name, entries[j].name)
  }

  /** The entries of the first `n` configured servers: each name once, at its last position, with the count 0. */
  ghost predicate Built(servers: seq<string>, n: nat, entries: seq<Entry>)
    requires n <= |servers|
  {
    && Sorted(entries)
    && (forall e :: e in entries ==> e.count == 0 && LastAt(servers, n, e.name, e.index))
    && (forall j :: 0 <= j < n ==> Names(entries, servers[j]))
  }

  ghost predicate LastAt(servers: seq<string>, n: nat, name: string, i: nat)
    requires n <= |servers|
  {
    i < n && servers[i] == name && forall j :: i < j < n ==> servers[j] != name
  }

  ghost predicate Names(entries: seq<Entry>, name: string) {
    exists e :: e in entries && e.name == name
  }

  lemma SplitAt(entries: seq<Entry>, name: string, p: nat, q: nat)
    requires Sorted(entries) && p <= q <= |entries| && q <= p + 1
    requires forall k :: 0 <= k < p ==> Before(entries[k].name, name)
    requires p < |entries| ==> !Before(entries[p].name, name)
    requires q == if p < |entries| && entries[p].name == name then p + 1 else p
    ensures forall k :: q <= k < |entries| ==> Before(name, entries[k].name)
  {
    hide Before;
    forall k | q <= k < |entries| ensures Before(name, entries[k].name) {
      BeforeIsTotal(entries[p].name, name);
      if p < k && p == q {
        BeforeIsTransitive(name, entries[p].name, entries[k].name);
      }
    }
  }

  lemma SpliceIsSorted(entries: seq<Entry>, e: Entry, p: nat, q: nat)
    requires Sorted(entries) && p <= q <= |entries|
    requires forall k :: 0 <= k < p ==> Before(entries[k].name, e.name)
    requires forall k :: q <= k < |entries| ==> Before(e.name, entries[k].name)
    ensures Sorted(entries[..p] + [e] + entries[q..])
  {
    hide Before;
    var r := entries[..p] + [e] + entries[q..];
    forall i, j | 0 <= i < j < |r| ensures Before(r[i].name, r[j].name) {
      assert r[i] == if i < p then entries[i] else if i == p then e else entries[i - p - 1 + q];
      assert r[j] == if j < p then entries[j] else if j == p then e else entries[j - p - 1 + q];
      if i < p && p < j {
        assert Before(entries[i].name, entries[j - p - 1 + q].name);
      }
    }
  }

  lemma SpliceKeeps(entries: seq<Entry>, e: Entry, p: nat, q: nat, f: Entry)
    requires p <= q <= |entries|
    requires forall k :: 0 <= k < p ==> Before(entries[k].name, e.name)
    requires forall k :: p <= k < q ==> entries[k].name == e.name
    requires forall k :: q <= k < |entries| ==> Before(e.name, entries[k].name)
    ensures f in entries[..p] + [e] + entries[q..] <==> f == e || (f in entries && f.name != e.name)
  {
    hide Before;
    forall k | 0 <= k < |entries| ensures p <= k < q <==> entries[k].name == e.name {
      BeforeIsTotal(entries[k].name, e.name);
    }
    if f in entries && f.name != e.name {
      var k :| 0 <= k < |entries| && entries[k] == f;
      assert k < p ==> f == entries[..p][k];
      assert k >= q ==> f == entries[q..][k - q];
    }
  }

  /** server_login_count[name] = {index, 0} on the ordered map. */
  method Assign(entries: seq<Entry>, name: string, index: nat) returns (r: seq<Entry>)
    requires Sorted(entries)
    ensures Sorted(r)
    ensures forall e :: e in r <==> e == Entry(name, index, 0) || (e in entries && e.name != name)
  {
    hide Before, Sorted;
    var p := 0;
    while p < |entries| && Before(entries[p].name, name)
      invariant 0 <= p <= |entries|
      invariant forall k :: 0 <= k < p ==> Before(entries[k].name, name)
    {
      p := p + 1;
    }
    var q := if p < |entries| && entries[p].name == name then p + 1 else p;
    var e := Entry(name, index, 0);
    r := entries[..p] + [e] + entries[q..];
    SplitAt(entries, name, p, q);
    SpliceIsSorted(entries, e, p, q);
    forall f ensures f in r <==> f == e || (f in entries && f.name != name) {
      SpliceKeeps(entries, e, p, q, f);
    }
  }

  lemma AssignBuilds(servers: seq<string>, i: nat, entries: seq<Entry>, r: seq<Entry>)
    requires i < |servers| && Built(servers, i, entries) && Sorted(r)
    requires forall e :: e in r <==> e == Entry(servers[i], i, 0) || (e in entries && e.name != servers[i])
    ensures Built(servers, i + 1, r)
  {
    hide Sorted;
    assert Entry(servers[i], i, 0) in r;
    forall j | 0 <= j < i + 1 ensures Names(r, servers[j]) {
      if servers[j] != servers[i] {
        assert Names(entries, servers[j]);
        var e :| e in entries && e.name == servers[j];
        assert e in r;
      }
    }
  }

  /** The first loop of get_server_index: an entry per configured server. */
  method BuildMap(servers: seq<string>) returns (entries: seq<Entry>)
    ensures Built(servers, |servers|, entries)
  {
    entries := [];
    for i := 0 to |servers|
      invariant Built(servers, i, entries)
    {
      hide Sorted, LastAt, Names;
      ghost var before := entries;
      entries := Assign(entries, servers[i], i);
      AssignBuilds(servers, i, before, entries);
    }
  }

  ghost predicate Overlaid(built: seq<Entry>, counts: map<string, int64>, entries: seq<Entry>) {
    |entries| == |built| &&
    forall k :: 0 <= k < |built| ==> entries[k] == built[k].(count := CountOf(counts, built[k].name))
  }

  /** The second loop: the counts of the hash, where a server of that name is configured. */
  method Overlay(built: seq<Entry>, counts: map<string, int64>) returns (entries: seq<Entry>)
    requires forall k :: 0 <= k < |built| ==> built[k].count == 0
    ensures Overlaid(built, counts, entries)
  {
    entries := built;
    var left := counts.Keys;
    while left != {}
      invariant left <= counts.Keys
      invariant |entries| == |built|
      invariant forall k :: 0 <= k < |built| ==>
                  entries[k] == if built[k].name in left then built[k]
                                else built[k].(count := CountOf(counts, built[k].name))
      decreases |left|
    {
      var key :| key in left;
      ghost var before := entries;
      for k := 0 to |entries|
        invariant |entries| == |built|
        invariant forall p :: k <= p < |built| ==> entries[p] == before[p]
        invariant forall p :: 0 <= p < k ==>
                    entries[p] == if built[p].name == key then built[p].(count := counts[key]) else before[p]
      {
        if entries[k].name == key {
          entries := entries[k := entries[k].(count := counts[key])];
        }
      }
      left := left - {key};
    }
  }

  lemma ScanIsChoice(servers: seq<string>, counts: map<string, int64>, built: seq<Entry>, entries: seq<Entry>,
                     best: int, index: nat)
    requires counts != map[] && Built(servers, |servers|, built) && Overlaid(built, counts, entries)
    requires -1 <= best < |entries|
    requires if best == -1 then index == 0 && forall p :: 0 <= p < |entries| ==> entries[p].count == INT64_MAX
             else
               && index == entries[best].index && entries[best].count < INT64_MAX
               && (forall p :: 0 <= p < |entries| ==> entries[best].count <= entries[p].count)
               && forall p :: 0 <= p < best ==> entries[best].count < entries[p].count
    ensures IsChoice(servers, counts, index)
  {
    hide Before, Precedes;
    forall j | 0 <= j < |servers|
      ensures if best == -1 then CountOf(counts, servers[j]) == INT64_MAX
              else index < |servers| && Preferred(servers, counts, index, j)
    {
      assert Names(built, servers[j]);
      var e :| e in built && e.name == servers[j];
      var p :| 0 <= p < |built| && built[p] == e;
      assert entries[p].count == CountOf(counts, servers[j]);
      if best != -1 {
        assert built[best] in built;
        if best < p {
          assert Before(built[best].name, built[p].name);
          BeforeIff(built[best].name, built[p].name);
        }
      }
    }
    if best != -1 {
      assert built[best] in built;
      assert CountOf(counts, servers[index]) < INT64_MAX;
    }
  }

  method GetServerIndex(servers: seq<string>, counts: map<string, int64>) returns (index: nat)
    ensures IsChoice(servers, counts, index)
  {
    hide Before, IsChoice;
    if counts == map[] {
      EmptyHash(servers);
      return 0;
    }
    var built := BuildMap(servers);
    var entries := Overlay(built, counts);
    var minValue := INT64_MAX;
    index := 0;
    ghost var best := -1;
    for k := 0 to |entries|
      invariant -1 <= best < k
      invariant if best == -1 then index == 0 && minValue == INT64_MAX
                else index == entries[best].index && minValue == entries[best].count < INT64_MAX
      invariant forall p :: 0 <= p < k ==> minValue <= entries[p].count
      invariant forall p :: 0 <= p < best ==> minValue < entries[p].count
    {
      if entries[k].count < minValue {
        minValue := entries[k].count;
        index := entries[k].index;
        best := k;
      }
    }
    ScanIsChoice(servers, counts, built, entries, best, index);
  }

  // ---------- Balance over whole runs ----------

  const UINT32_MAX: nat := 0xFFFF_FFFF

  /** The participants of server `i` when `chosen` lists the servers the sessions connected to. */
  function Load(chosen: seq<nat>, i: nat): nat {
    if chosen == [] then 0 else Load(chosen[..|chosen| - 1], i) + if chosen[|chosen| - 1] == i then 1 else 0
  }

  /** The login_count hash after each session of `chosen` connected and logged in: a login writes its server's count. */
  function Counts(servers: seq<string>, chosen: seq<nat>): map<string, int64>
    requires forall k :: 0 <= k < |chosen| ==> chosen[k] < |servers|
  {
    if chosen == [] then map[]
    else
      var last := chosen[|chosen| - 1];
      Counts(servers, chosen[..|chosen| - 1])[servers[last] := AsUint32(Load(chosen, last))]
  }

  /** A run of atomic rounds: choose a server, connect to it, log in.  Nobody leaves. */
  ghost predicate Rounds(servers: seq<string>, chosen: seq<nat>) {
    chosen == [] ||
    var earlier, last := chosen[..|chosen| - 1], chosen[|chosen| - 1];
    && Rounds(servers, earlier) && (forall k :: 0 <= k < |chosen| ==> chosen[k] < |servers|)
    && IsChoice(servers, Counts(servers, earlier), last)
  }

  ghost predicate Distinct(servers: seq<string>) {
    servers != [] && forall i, j :: 0 <= i < j < |servers| ==> servers[i] != servers[j]
  }

  /** Every one of `n` servers has the floor or the ceiling of an n-th of the sessions. */
  ghost predicate Balanced(chosen: seq<nat>, n: nat)
    requires n > 0
  {
    forall i: nat :: i < n ==> |chosen| / n <= Load(chosen, i) <= (|chosen| + n - 1) / n
  }

  function Total(chosen: seq<nat>, n: nat): nat {
    if n == 0 then 0 else Total(chosen, n - 1) + Load(chosen, n - 1)
  }

  lemma {:induction false} TotalAppend(chosen: seq<nat>, i: nat, n: nat)
    ensures Total(chosen + [i], n) == Total(chosen, n) + if i < n then 1 else 0
  {
    if n > 0 {
      TotalAppend(chosen, i, n - 1);
      assert (chosen + [i])[..|chosen|] == chosen;
    }
  }

  lemma {:induction false} TotalOfNone(n: nat)
    ensures Total([], n) == 0
  {
    if n > 0 {
      TotalOfNone(n - 1);
    }
  }

  /** Nobody is lost: the servers' participants add up to the sessions. */
  lemma {:induction false} TotalIsSessions(chosen: seq<nat>, n: nat)
    requires forall k :: 0 <= k < |chosen| ==> chosen[k] < n
    ensures Total(chosen, n) == |chosen|
  {
    if chosen == [] {
      TotalOfNone(n);
    } else {
      var earlier, last := chosen[..|chosen| - 1], chosen[|chosen| - 1];
      TotalIsSessions(earlier, n);
      TotalAppend(earlier, last, n);
      assert chosen == earlier + [last];
    }
  }

  lemma {:induction false} TotalBetween(chosen: seq<nat>, n: nat, low: nat, high: nat)
    requires forall i: nat :: i < n ==> low <= Load(chosen, i) <= high
    ensures n * low <= Total(chosen, n) <= n * high
    ensures Total(chosen, n) == n * low ==> forall i: nat :: i < n ==> Load(chosen, i) == low
    ensures Total(chosen, n) == n * high ==> forall i: nat :: i < n ==> Load(chosen, i) == high
  {
    if n > 0 {
      TotalBetween(chosen, n - 1, low, high);
      assert n * low == (n - 1) * low + low && n * high == (n - 1) * high + high;
    }
  }

  /** Every server has m or m + 1 participants, and some server has m. */
  ghost predicate Level(chosen: seq<nat>, n: nat, m: nat) {
    (forall i: nat :: i < n ==> m <= Load(chosen, i) <= m + 1) && n * m <= |chosen| < n * (m + 1)
  }

  lemma LevelIsBalanced(chosen: seq<nat>, n: nat, m: nat)
    requires n > 0 && Level(chosen, n, m) && forall k :: 0 <= k < |chosen| ==> chosen[k] < n
    ensures m == |chosen| / n && Balanced(chosen, n)
  {
    var k := |chosen|;
    Quotient(k, n, m);
    TotalIsSessions(chosen, n);
    TotalBetween(chosen, n, m, m + 1);
    if k == n * m {
      Quotient(k + n - 1, n, m);
    } else {
      Quotient(k + n - 1, n, m + 1);
    }
  }

  lemma Quotient(k: nat, n: nat, m: nat)
    requires n > 0 && n * m <= k < n * (m + 1)
    ensures k / n == m
  {
    var q := k / n;
    assert k == n * q + k % n;
    TimesIsMonotone(n, q + 1, m);
    TimesIsMonotone(n, m + 1, q);
    assert n * (q + 1) == n * q + n;
  }

  lemma TimesIsMonotone(n: nat, a: nat, b: nat)
    ensures a <= b ==> n * a <= n * b
  {
  }

  /** As long as no count has wrapped, the hash tells every server's participants. */
  lemma {:induction false} CountsAreLoads(servers: seq<string>, chosen: seq<nat>, i: nat)
    requires Distinct(servers) && i < |servers| && forall k :: 0 <= k < |chosen| ==> chosen[k] < |servers|
    ensures CountOf(Counts(servers, chosen), servers[i]) == AsUint32(Load(chosen, i))
  {
    if chosen != [] {
      CountsAreLoads(servers, chosen[..|chosen| - 1], i);
    }
  }

  lemma RoundsInRange(servers: seq<string>, chosen: seq<nat>)
    requires Rounds(servers, chosen)
    ensures forall k :: 0 <= k < |chosen| ==> chosen[k] < |servers|
  {
  }

  /** The chosen server's count is the least one. */
  lemma ChoiceIsLeast(servers: seq<string>, chosen: seq<nat>, i: nat, j: nat)
    requires Distinct(servers) && Rounds(servers, chosen + [i]) && j < |servers|
    ensures i < |servers| && forall k :: 0 <= k < |chosen| ==> chosen[k] < |servers|
    ensures AsUint32(Load(chosen, i)) <= AsUint32(Load(chosen, j))
  {
    hide Before, Precedes;
    var run := chosen + [i];
    assert run[..|run| - 1] == chosen;
    RoundsInRange(servers, run);
    assert forall k :: 0 <= k < |chosen| ==> chosen[k] == run[k];
    assert run[|chosen|] == i;
    CountsAreLoads(servers, chosen, i);
    CountsAreLoads(servers, chosen, j);
    var counts := Counts(servers, chosen);
    if counts == map[] {
      assert chosen == [];
    } else {
      assert CountOf(counts, servers[i]) <= UINT32_MAX;
      assert Preferred(servers, counts, i, j);
    }
  }

  lemma {:induction false} RoundsLevel(servers: seq<string>, chosen: seq<nat>) returns (m: nat)
    requires Distinct(servers) && Rounds(servers, chosen) && |chosen| <= |servers| * UINT32_MAX + 1
    ensures Level(chosen, |servers|, m)
  {
    var n := |servers|;
    if chosen == [] {
      m := 0;
    } else {
      var earlier, i := chosen[..|chosen| - 1], chosen[|chosen| - 1];
      assert chosen == earlier + [i];
      m := RoundsLevel(servers, earlier);
      RoundsInRange(servers, chosen);
      NoWrapYet(earlier, n, m);
      forall j: nat | j < n ensures Load(earlier, i) <= Load(earlier, j) {
        ChoiceIsLeast(servers, earlier, i, j);
      }
      m := NextLevel(earlier, n, m, i);
    }
  }

  lemma NoWrapYet(chosen: seq<nat>, n: nat, m: nat)
    requires n > 0 && Level(chosen, n, m) && |chosen| <= n * UINT32_MAX
    requires forall k :: 0 <= k < |chosen| ==> chosen[k] < n
    ensures forall i: nat :: i < n ==> Load(chosen, i) <= UINT32_MAX && AsUint32(Load(chosen, i)) == Load(chosen, i)
  {
    hide Load, Total;
    TotalIsSessions(chosen, n);
    TotalBetween(chosen, n, m, m + 1);
    TimesIsMonotone(n, UINT32_MAX, m);
    TimesIsMonotone(n, UINT32_MAX + 1, m);
  }

  /** A session more on a least loaded server. */
  lemma NextLevel(chosen: seq<nat>, n: nat, m: nat, i: nat) returns (r: nat)
    requires Level(chosen, n, m) && i < n && forall k :: 0 <= k < |chosen| ==> chosen[k] < n
    requires forall j: nat :: j < n ==> Load(chosen, i) <= Load(chosen, j)
    ensures Level(chosen + [i], n, r)
  {
    var next := chosen + [i];
    assert next[..|chosen|] == chosen;
    TotalIsSessions(chosen, n);
    TotalIsSessions(next, n);
    if Load(chosen, i) > m {
      TotalBetween(chosen, n, m + 1, m + 1);
      assert false;
    }
    TotalBetween(next, n, m, m + 1);
    r := if |next| == n * (m + 1) then m + 1 else m;
    if r == m + 1 {
      assert n * (m + 2) == n * (m + 1) + n;
    }
  }

  /** Through the first n * (2^32 - 1) + 1 rounds every server has the floor or the ceiling of its share. */
  lemma RoundsBalance(servers: seq<string>, chosen: seq<nat>)
    requires Distinct(servers) && Rounds(servers, chosen) && |chosen| <= |servers| * UINT32_MAX + 1
    ensures Balanced(chosen, |servers|)
  {
    var m := RoundsLevel(servers, chosen);
    RoundsInRange(servers, chosen);
    LevelIsBalanced(chosen, |servers|, m);
  }

  /** One round later the count of a server has wrapped to zero, it is chosen again, and with more than one server the
      balance is lost. */
  lemma WrapLosesBalance(servers: seq<string>, chosen: seq<nat>)
    requires Distinct(servers) && Rounds(servers, chosen) && |chosen| == |servers| * UINT32_MAX + 2 && |servers| > 1
    ensures !Balanced(chosen, |servers|)
  {
    hide Rounds, Counts, Level;
    var n, one := |servers|, chosen[..|chosen| - 1];
    var full, i, again := one[..|one| - 1], one[|one| - 1], chosen[|chosen| - 1];
    assert chosen == one + [again] && one == full + [i];
    assert Rounds(servers, one) && Rounds(servers, full) by { RoundsPrefix(servers, chosen); RoundsPrefix(servers, one); }
    RoundsInRange(servers, chosen);
    FullLoads(servers, full);
    WrappedIsChosenAgain(servers, full, i, again);
    TwoMore(full, n, i);
  }

  lemma WrappedIsChosenAgain(servers: seq<string>, full: seq<nat>, i: nat, again: nat)
    requires Distinct(servers) && Rounds(servers, full + [i] + [again]) && i < |servers|
    requires forall j: nat :: j < |servers| ==> Load(full, j) == UINT32_MAX
    ensures again == i
  {
    hide Rounds, Counts;
    var one := full + [i];
    ChoiceIsLeast(servers, one, again, i);
    assert one[..|full|] == full;
  }

  lemma TwoMore(full: seq<nat>, n: nat, i: nat)
    requires i < n && n > 1 && |full| == n * UINT32_MAX && Load(full, i) == UINT32_MAX
    ensures !Balanced(full + [i] + [i], n)
  {
    var one := full + [i];
    var two := one + [i];
    OneMore(full, i);
    OneMore(one, i);
    hide Load;
    Quotient(|two| + n - 1, n, UINT32_MAX + 1);
    assert Load(two, i) == UINT32_MAX + 2;
  }

  lemma OneMore(chosen: seq<nat>, i: nat)
    ensures Load(chosen + [i], i) == Load(chosen, i) + 1
  {
    assert (chosen + [i])[..|chosen|] == chosen;
  }

  lemma RoundsPrefix(servers: seq<string>, chosen: seq<nat>)
    requires Rounds(servers, chosen) && chosen != []
    ensures Rounds(servers, chosen[..|chosen| - 1])
  {
  }

  lemma FullLoads(servers: seq<string>, chosen: seq<nat>)
    requires Distinct(servers) && Rounds(servers, chosen) && |chosen| == |servers| * UINT32_MAX
    ensures forall i: nat :: i < |servers| ==> Load(chosen, i) == UINT32_MAX
  {
    hide Rounds;
    var n := |servers|;
    var m := RoundsLevel(servers, chosen);
    RoundsInRange(servers, chosen);
    TotalIsSessions(chosen, n);
    LevelIsBalanced(chosen, n, m);
    Quotient(n * UINT32_MAX, n, UINT32_MAX);
    TotalBetween(chosen, n, m, m + 1);
  }

  lemma {:induction false} RoundsTake(servers: seq<string>, chosen: seq<nat>, k: nat)
    requires Rounds(servers, chosen) && k <= |chosen|
    ensures Rounds(servers, chosen[..k])
  {
    if k < |chosen| {
      RoundsTake(servers, chosen[..|chosen| - 1], k);
      assert chosen[..|chosen| - 1][..k] == chosen[..k];
    } else {
      assert chosen[..k] == chosen;
    }
  }

  /** A run is balanced after each of its rounds exactly when there is one server or no count had to wrap. */
  lemma AlwaysBalancedIffNoWrap(servers: seq<string>, chosen: seq<nat>)
    requires Distinct(servers) && Rounds(servers, chosen)
    ensures (forall k :: 0 <= k <= |chosen| ==> Balanced(chosen[..k], |servers|)) <==>
            |servers| == 1 || |chosen| <= |servers| * UINT32_MAX + 1
  {
    hide Rounds, Balanced;
    var n := |servers|;
    RoundsInRange(servers, chosen);
    if n == 1 {
      forall k | 0 <= k <= |chosen| ensures Balanced(chosen[..k], n) {
        OneServer(chosen[..k]);
      }
    } else if |chosen| <= n * UINT32_MAX + 1 {
      forall k | 0 <= k <= |chosen| ensures Balanced(chosen[..k], n) {
        RoundsTake(servers, chosen, k);
        RoundsBalance(servers, chosen[..k]);
      }
    } else {
      var k := n * UINT32_MAX + 2;
      RoundsTake(servers, chosen, k);
      WrapLosesBalance(servers, chosen[..k]);
    }
  }

  lemma OneServer(chosen: seq<nat>)
    requires forall k :: 0 <= k < |chosen| ==> chosen[k] < 1
    ensures Balanced(chosen, 1)
  {
    TotalIsSessions(chosen, 1);
    assert Total(chosen, 1) == Total(chosen, 0) + Load(chosen, 0);
  }

  /** The rounds themselves. */
  method RunRounds(servers: seq<string>, k: nat) returns (chosen: seq<nat>)
    requires Distinct(servers)
    ensures |chosen| == k && Rounds(servers, chosen)
    ensures k <= |servers| * UINT32_MAX + 1 ==> Balanced(chosen, |servers|)
  {
    chosen := [];
    var counts: map<string, int64> := map[];
    for round := 0 to k
      invariant |chosen| == round && Rounds(servers, chosen)
      invariant forall k :: 0 <= k < |chosen| ==> chosen[k] < |servers|
      invariant counts == Counts(servers, chosen)
    {
      hide IsChoice;
      var index := GetServerIndex(servers, counts);
      ChoiceInRange(servers, counts, index);
      ghost var before := chosen;
      chosen := chosen + [index];
      assert chosen[..round] == before;
      counts := counts[servers[index] := AsUint32(Load(chosen, index))];
    }
    if k <= |servers| * UINT32_MAX + 1 {
      RoundsBalance(servers, chosen);
    }
  }

  lemma ChoiceInRange(servers: seq<string>, counts: map<string, int64>, index: nat)
    requires servers != [] && IsChoice(servers, counts, index)
    ensures index < |servers|
  {
  }
}
