/** The permission cache over whole runs: what it answers, and which keys it holds. */
module CacheRuns {
  import opened Common
  import opened LruCache

  datatype Op<K, V> = Get(key: K) | Put(key: K, value: V)

  function Apply<K(==), V>(s: seq<(K, V)>, capacity: nat, op: Op<K, V>): seq<(K, V)>
    requires 1 <= capacity
  {
    match op
    case Get(k) => Got(s, k)
    case Put(k, v) => Stored(s, capacity, k, v)
  }

  /** The contents of an empty cache after a run of operations. */
  function Run<K(==), V>(capacity: nat, ops: seq<Op<K, V>>): seq<(K, V)>
    requires 1 <= capacity
  {
    if ops == [] then [] else Apply(Run(capacity, ops[..|ops| - 1]), capacity, ops[|ops| - 1])
  }

  function LastPut<K(==), V>(ops: seq<Op<K, V>>, k: K): Option<V> {
    if ops == [] then None
    else
      var op := ops[|ops| - 1];
      if op.Put? && op.key == k then Some(op.value) else LastPut(ops[..|ops| - 1], k)
  }

  /** What every run keeps. */
  ghost predicate Kept<K, V>(s: seq<(K, V)>, capacity: nat, ops: seq<Op<K, V>>) {
    && |s| <= capacity && Distinct(Keys(s))
    && forall i :: 0 <= i < |s| ==> LastPut(ops, s[i].0) == Some(s[i].1)
  }

  lemma {:induction false} LookupFirst<K, V>(s: seq<(K, V)>, k: K) returns (m: nat)
    requires Lookup(s, k).Some?
    ensures m < |s| && s[m] == (k, Lookup(s, k).value)
  {
    if s[0].0 == k {
      m := 0;
    } else {
      m := LookupFirst(s[1..], k);
      m := m + 1;
    }
  }

  lemma {:induction false} LookupNone<K, V>(s: seq<(K, V)>, k: K)
    requires Lookup(s, k).None?
    ensures forall i :: 0 <= i < |s| ==> s[i].0 != k
  {
    if s != [] {
      LookupNone(s[1..], k);
    }
  }

  /** An entry brought to the front of a list with distinct keys. */
  lemma ToFront<K, V>(s: seq<(K, V)>, k: K) returns (m: nat)
    requires Distinct(Keys(s)) && Lookup(s, k).Some?
    ensures m < |s| && s[m] == (k, Lookup(s, k).value) && Without(s, k) == Cut(s, m)
    ensures forall i :: 0 <= i < |s| && i != m ==> s[i].0 != k
  {
    m := LookupFirst(s, k);
    WithoutIsCut(s, m);
    assert Keys(s)[m] == k;
    forall i | 0 <= i < |s| && i != m ensures s[i].0 != k {
      assert Keys(s)[i] != Keys(s)[m];
    }
  }

  lemma LastPutStep<K, V>(ops: seq<Op<K, V>>, op: Op<K, V>, k: K)
    ensures LastPut(ops + [op], k) == if op.Put? && op.key == k then Some(op.value) else LastPut(ops, k)
  {
    assert (ops + [op])[..|ops|] == ops;
  }

  lemma KeptFront<K, V>(s: seq<(K, V)>, capacity: nat, ops: seq<Op<K, V>>, op: Op<K, V>, v: V)
    requires Kept(s, capacity, ops) && Lookup(s, op.key).Some? && v == (if op.Put? then op.value else Lookup(s, op.key).value)
    ensures Kept([(op.key, v)] + Without(s, op.key), capacity, ops + [op])
  {
    var m := ToFront(s, op.key);
    var t := [(op.key, v)] + Cut(s, m);
    hide LastPut, Lookup, Without;
    forall i | 0 <= i < |t| ensures LastPut(ops + [op], t[i].0) == Some(t[i].1) {
      LastPutStep(ops, op, t[i].0);
    }
    forall i, j | 0 <= i < j < |t| ensures Keys(t)[i] != Keys(t)[j] {
      if i > 0 {
        var x, y := if i - 1 < m then i - 1 else i, if j - 1 < m then j - 1 else j;
        assert Keys(s)[x] != Keys(s)[y];
      }
    }
  }

  lemma KeptNew<K, V>(s: seq<(K, V)>, capacity: nat, ops: seq<Op<K, V>>, op: Op<K, V>)
    requires 1 <= capacity && Kept(s, capacity, ops) && Lookup(s, op.key).None? && op.Put?
    ensures Kept(Stored(s, capacity, op.key, op.value), capacity, ops + [op])
  {
    LookupNone(s, op.key);
    var t := Stored(s, capacity, op.key, op.value);
    hide LastPut, Lookup, Without;
    forall i | 0 <= i < |t| ensures LastPut(ops + [op], t[i].0) == Some(t[i].1) {
      LastPutStep(ops, op, t[i].0);
    }
    forall i, j | 0 <= i < j < |t| ensures Keys(t)[i] != Keys(t)[j] {
      if i > 0 {
        assert Keys(s)[i - 1] != Keys(s)[j - 1];
      }
    }
  }

  lemma {:induction false} RunKept<K, V>(capacity: nat, ops: seq<Op<K, V>>)
    requires 1 <= capacity
    ensures Kept(Run(capacity, ops), capacity, ops)
    decreases |ops|
  {
    if ops == [] {
    } else {
      var before, op := ops[..|ops| - 1], ops[|ops| - 1];
      assert before + [op] == ops;
      RunKept(capacity, before);
      var s := Run(capacity, before);
      hide LastPut, Kept, Without, Lookup;
      if Lookup(s, op.key).Some? {
        KeptFront(s, capacity, before, op, if op.Put? then op.value else Lookup(s, op.key).value);
      } else if op.Put? {
        KeptNew(s, capacity, before, op);
      } else {
        KeptMiss(s, capacity, before, op);
      }
    }
  }

  lemma KeptMiss<K, V>(s: seq<(K, V)>, capacity: nat, ops: seq<Op<K, V>>, op: Op<K, V>)
    requires Kept(s, capacity, ops) && op.Get?
    ensures Kept(s, capacity, ops + [op])
  {
    hide LastPut;
    forall i | 0 <= i < |s| ensures LastPut(ops + [op], s[i].0) == Some(s[i].1) {
      LastPutStep(ops, op, s[i].0);
    }
  }

  /** A key that is found is found with the value last put under it. */
  lemma FoundIsLastPut<K, V>(capacity: nat, ops: seq<Op<K, V>>, k: K)
    requires 1 <= capacity && Lookup(Run(capacity, ops), k).Some?
    ensures Lookup(Run(capacity, ops), k) == LastPut(ops, k)
  {
    RunKept(capacity, ops);
    var m := LookupFirst(Run(capacity, ops), k);
  }

  // ---- eviction, in any run of gets and puts -----------------------------------------------------------------

  /** The last operation that used the key: put it, or found it. -1 if none did. */
  function LastUsed<K(==), V>(capacity: nat, ops: seq<Op<K, V>>, k: K): (n: int)
    requires 1 <= capacity
    ensures -1 <= n < |ops|
  {
    if ops == [] then -1
    else
      var m := |ops| - 1;
      if ops[m].key == k && (ops[m].Put? || Lookup(Run(capacity, ops[..m]), k).Some?) then m else LastUsed(capacity, ops[..m], k)
  }

  /** The keys stand in the order of their use, the latest first. */
  ghost predicate InOrder<K(!new)>(ks: seq<K>, used: K -> int) {
    forall i, j :: 0 <= i < j < |ks| ==> used(ks[i]) > used(ks[j])
  }

  /** Every key that is there has been used; one that has been used and is gone was used before every key that is there,
      and the cache is full. */
  ghost predicate Behind<K(!new)>(ks: seq<K>, used: K -> int, full: bool) {
    && (forall x :: x in ks ==> used(x) >= 0)
    && (forall k :: k !in ks && used(k) >= 0 ==> full && forall x :: x in ks ==> used(x) > used(k))
  }

  ghost predicate ByUse<K(!new), V>(capacity: nat, ops: seq<Op<K, V>>, s: seq<(K, V)>)
    requires 1 <= capacity
  {
    && InOrder(Keys(s), k => LastUsed(capacity, ops, k))
    && Behind(Keys(s), k => LastUsed(capacity, ops, k), |s| == capacity)
  }

  /** What is left when a key is taken out stands in the same order. */
  lemma TakenOut<K(!new)>(ks: seq<K>, m: nat, used: K -> int)
    requires m < |ks| && InOrder(ks, used)
    ensures InOrder(Cut(ks, m), used) && ks[m] !in Cut(ks, m)
    ensures forall x :: x in ks <==> x in [ks[m]] + Cut(ks, m)
  {
    var rest := Cut(ks, m);
    forall i | 0 <= i < |rest| ensures rest[i] != ks[m] {
      assert used(rest[i]) != used(ks[m]);
    }
    forall x | x in ks ensures x in [ks[m]] + rest {
      if x != ks[m] { CutKeeps(ks, m, x); }
    }
  }

  /** The key used now goes in front of keys used before. */
  lemma Pushed<K(!new)>(rest: seq<K>, k: K, used: K -> int, now: K -> int, n: int)
    requires InOrder(rest, used) && k !in rest && forall x :: used(x) < n && now(x) == if x == k then n else used(x)
    ensures InOrder([k] + rest, now)
  {
    var t := [k] + rest;
    forall i, j | 0 <= i < j < |t| ensures now(t[i]) > now(t[j]) {
      assert t[j] == rest[j - 1] && now(t[j]) == used(t[j]);
      if i > 0 {
        assert t[i] == rest[i - 1] && now(t[i]) == used(t[i]);
      }
    }
  }

  lemma StillBehind<K(!new)>(ks: seq<K>, t: seq<K>, k: K, used: K -> int, now: K -> int, n: int, full: bool)
    requires Behind(ks, used, full) && n >= 0 && forall x :: used(x) < n && now(x) == if x == k then n else used(x)
    requires forall x :: x in t <==> x in ks || x == k
    ensures Behind(t, now, full)
  {
  }

  /** In a full cache the key at the end goes, and was used before the others. */
  lemma LastGoes<K(!new)>(ks: seq<K>, used: K -> int)
    requires ks != [] && InOrder(ks, used) && Behind(ks, used, true)
    ensures InOrder(ks[..|ks| - 1], used) && Behind(ks[..|ks| - 1], used, true)
  {
    var m := |ks| - 1;
    var rest := ks[..m];
    forall i | 0 <= i < m ensures rest[i] == ks[i] && used(ks[i]) > used(ks[m]) {
    }
    forall k | k !in rest && used(k) >= 0 ensures forall x :: x in rest ==> used(x) > used(k) {
      assert k == ks[m] || k !in ks;
    }
  }

  lemma LastUsedStep<K, V>(capacity: nat, ops: seq<Op<K, V>>, op: Op<K, V>, k: K)
    requires 1 <= capacity
    ensures LastUsed(capacity, ops + [op], k) ==
      if op.key == k && (op.Put? || Lookup(Run(capacity, ops), k).Some?) then |ops| else LastUsed(capacity, ops, k)
  {
    assert (ops + [op])[..|ops|] == ops;
  }

  lemma FrontKeys<K, V>(s: seq<(K, V)>, k: K, v: V) returns (m: nat)
    requires Distinct(Keys(s)) && Lookup(s, k).Some?
    ensures m < |Keys(s)| && Keys(s)[m] == k && |[(k, v)] + Without(s, k)| == |s|
    ensures Keys([(k, v)] + Without(s, k)) == [k] + Cut(Keys(s), m)
  {
    m := ToFront(s, k);
    hide Without, Lookup, Distinct;
    assert Keys([(k, v)] + Cut(s, m)) == [k] + Cut(Keys(s), m);
  }

  lemma UseFront<K(!new), V>(capacity: nat, ops: seq<Op<K, V>>, op: Op<K, V>, s: seq<(K, V)>, v: V)
    requires 1 <= capacity && s == Run(capacity, ops) && Distinct(Keys(s)) && ByUse(capacity, ops, s) && Lookup(s, op.key).Some?
    ensures ByUse(capacity, ops + [op], [(op.key, v)] + Without(s, op.key))
  {
    var m := FrontKeys(s, op.key, v);
    forall k ensures LastUsed(capacity, ops + [op], k) == if op.key == k then |ops| else LastUsed(capacity, ops, k) {
      LastUsedStep(capacity, ops, op, k);
    }
    LastUsedBelow(capacity, ops);
    InFront(Keys(s), m, k => LastUsed(capacity, ops, k), k => LastUsed(capacity, ops + [op], k), |ops|, |s| == capacity);
    hide LastUsed, Lookup, Without, Run, Distinct, InOrder, Behind, Keys, Cut;
  }

  lemma InFront<K(!new)>(ks: seq<K>, m: nat, used: K -> int, now: K -> int, n: int, full: bool)
    requires m < |ks| && InOrder(ks, used) && Behind(ks, used, full) && n >= 0
    requires forall x :: used(x) < n && now(x) == if x == ks[m] then n else used(x)
    ensures InOrder([ks[m]] + Cut(ks, m), now) && Behind([ks[m]] + Cut(ks, m), now, full)
  {
    hide *;
    TakenOut(ks, m, used);
    Pushed(Cut(ks, m), ks[m], used, now, n);
    StillBehind(ks, [ks[m]] + Cut(ks, m), ks[m], used, now, n, full);
  }

  lemma LastUsedBelow<K(!new), V>(capacity: nat, ops: seq<Op<K, V>>)
    requires 1 <= capacity
    ensures forall k :: LastUsed(capacity, ops, k) < |ops|
  {
  }

  lemma NewKeys<K, V>(s: seq<(K, V)>, capacity: nat, k: K, v: V)
    requires 1 <= capacity && Lookup(s, k).None? && |s| <= capacity
    ensures var t := Stored(s, capacity, k, v);
      && k !in Keys(s) && |t| == (if |s| == capacity then capacity else |s| + 1)
      && Keys(t) == [k] + if |Keys(s)| == capacity then Keys(s)[..capacity - 1] else Keys(s)
  {
    LookupNone(s, k);
    var kept := if |s| >= capacity then s[..|s| - 1] else s;
    assert Keys([(k, v)] + kept) == [k] + Keys(kept);
    assert Keys(kept) == if |s| >= capacity then Keys(s)[..|s| - 1] else Keys(s);
  }

  lemma NewInFront<K(!new)>(ks: seq<K>, k: K, used: K -> int, now: K -> int, n: int, capacity: nat)
    requires 1 <= capacity && |ks| <= capacity && k !in ks && InOrder(ks, used) && Behind(ks, used, |ks| == capacity) && n >= 0
    requires forall x :: used(x) < n && now(x) == if x == k then n else used(x)
    ensures var t := [k] + if |ks| == capacity then ks[..capacity - 1] else ks; InOrder(t, now) && Behind(t, now, |t| == capacity)
  {
    var kept := if |ks| == capacity then ks[..capacity - 1] else ks;
    assert forall x :: x in kept ==> x in ks;
    assert Behind(ks, used, false) ==> forall full :: Behind(ks, used, full);
    hide InOrder, Behind;
    if |ks| == capacity {
      LastGoes(ks, used);
    }
    Pushed(kept, k, used, now, n);
    StillBehind(kept, [k] + kept, k, used, now, n, |kept| + 1 == capacity);
  }

  lemma UseNew<K(!new), V>(capacity: nat, ops: seq<Op<K, V>>, op: Op<K, V>, s: seq<(K, V)>)
    requires 1 <= capacity && s == Run(capacity, ops) && |s| <= capacity && ByUse(capacity, ops, s) && Lookup(s, op.key).None? && op.Put?
    ensures ByUse(capacity, ops + [op], Stored(s, capacity, op.key, op.value))
  {
    NewKeys(s, capacity, op.key, op.value);
    forall k ensures LastUsed(capacity, ops + [op], k) == if op.key == k then |ops| else LastUsed(capacity, ops, k) {
      LastUsedStep(capacity, ops, op, k);
    }
    LastUsedBelow(capacity, ops);
    NewInFront(Keys(s), op.key, k => LastUsed(capacity, ops, k), k => LastUsed(capacity, ops + [op], k), |ops|, capacity);
    hide LastUsed, Lookup, Run, Stored, InOrder, Behind;
  }

  /** In every run of gets and puts the keys stand in the order of their last use, the latest first, and what has been
      pushed out was used less recently than everything that is there. */
  lemma {:induction false} LeastRecentlyUsedGoes<K(!new), V>(capacity: nat, ops: seq<Op<K, V>>)
    requires 1 <= capacity
    ensures ByUse(capacity, ops, Run(capacity, ops))
    decreases |ops|
  {
    if ops != [] {
      var before, op := ops[..|ops| - 1], ops[|ops| - 1];
      assert before + [op] == ops;
      LeastRecentlyUsedGoes(capacity, before);
      RunKept(capacity, before);
      var s := Run(capacity, before);
      assert Run(capacity, ops) == Apply(s, capacity, op);
      hide LastPut, ByUse, Without, Lookup, Run;
      if Lookup(s, op.key).Some? {
        UseFront(capacity, before, op, s, if op.Put? then op.value else Lookup(s, op.key).value);
      } else if op.Put? {
        UseNew(capacity, before, op, s);
      } else {
        UseNone(capacity, before, op, s);
      }
    }
  }

  lemma UseNone<K(!new), V>(capacity: nat, ops: seq<Op<K, V>>, op: Op<K, V>, s: seq<(K, V)>)
    requires 1 <= capacity && s == Run(capacity, ops) && ByUse(capacity, ops, s) && Lookup(s, op.key).None? && op.Get?
    ensures ByUse(capacity, ops + [op], s)
  {
    forall k ensures LastUsed(capacity, ops + [op], k) == LastUsed(capacity, ops, k) {
      LastUsedStep(capacity, ops, op, k);
    }
    hide LastUsed, Run;
  }

  // ---- get, else put -----------------------------------------------------------------------------------------

  /** A key is looked up; if it is not there, `value` is computed and put. */
  datatype Access<K, V> = Access(key: K, value: V)

  function Touch<K(==), V>(s: seq<(K, V)>, capacity: nat, a: Access<K, V>): seq<(K, V)>
    requires 1 <= capacity
  {
    if Lookup(s, a.key).Some? then Got(s, a.key) else Stored(s, capacity, a.key, a.value)
  }

  function Accesses<K(==), V>(capacity: nat, log: seq<Access<K, V>>): seq<(K, V)>
    requires 1 <= capacity
  {
    if log == [] then [] else Touch(Accesses(capacity, log[..|log| - 1]), capacity, log[|log| - 1])
  }

  /** The position of the last access to a key, or -1. */
  function LastUse<K(==), V>(log: seq<Access<K, V>>, k: K): (n: int)
    ensures -1 <= n < |log|
  {
    if log == [] then -1 else if log[|log| - 1].key == k then |log| - 1 else LastUse(log[..|log| - 1], k)
  }

  /** The keys accessed, each once, from the most recently to the least recently accessed. */
  ghost predicate ByRecency<K(!new), V>(ks: seq<K>, log: seq<Access<K, V>>) {
    && (forall k :: k in ks <==> LastUse(log, k) >= 0)
    && (forall i, j :: 0 <= i < j < |ks| ==> LastUse(log, ks[i]) > LastUse(log, ks[j]))
  }

  /** A key brought to the front of a list of keys. */
  function Bring<K(==)>(ks: seq<K>, k: K): seq<K> {
    [k] + if k in ks then Cut(ks, Position(ks, k)) else ks
  }

  /** Where a key that is now at place `i` was before. */
  function Was<K(==)>(ks: seq<K>, k: K, i: nat): (x: nat)
    requires 0 < i < |Bring(ks, k)|
    ensures x < |ks| && ks[x] == Bring(ks, k)[i] && (x == i || x == i - 1)
  {
    if k in ks && Position(ks, k) <= i - 1 then i else i - 1
  }

  lemma BringMoves<K>(ks: seq<K>, k: K)
    requires Distinct(ks)
    ensures forall i {:trigger Was(ks, k, i)} :: 0 < i < |Bring(ks, k)| ==> ks[Was(ks, k, i)] != k
    ensures forall i, j {:trigger Was(ks, k, i), Was(ks, k, j)} :: 0 < i < j < |Bring(ks, k)| ==> Was(ks, k, i) < Was(ks, k, j)
  {
  }

  lemma BringMembers<K>(ks: seq<K>, k: K, x: K)
    ensures x in Bring(ks, k) <==> x == k || x in ks
  {
    var more := Bring(ks, k);
    if x in ks && x != k {
      var i :| 0 <= i < |ks| && ks[i] == x;
      if k in ks && Position(ks, k) <= i {
        assert more[i] == x;
      } else {
        assert more[i + 1] == x;
      }
    }
  }

  function Recent<K(==), V>(log: seq<Access<K, V>>): seq<K> {
    if log == [] then [] else Bring(Recent(log[..|log| - 1]), log[|log| - 1].key)
  }

  lemma {:induction false} RecentIsByRecency<K(!new), V>(log: seq<Access<K, V>>)
    ensures ByRecency(Recent(log), log)
    decreases |log|
  {
    if log == [] {
    } else {
      var before := log[..|log| - 1];
      RecentIsByRecency(before);
      RecencyStep(Recent(before), log);
    }
  }

  lemma RecencyStep<K(!new), V>(ks: seq<K>, log: seq<Access<K, V>>)
    requires log != [] && ByRecency(ks, log[..|log| - 1])
    ensures ByRecency(Bring(ks, log[|log| - 1].key), log)
  {
    var k, n := log[|log| - 1].key, |log| - 1;
    var more := Bring(ks, k);
    BringMoves(ks, k);
    hide Bring, Was;
    forall x ensures x in more <==> LastUse(log, x) >= 0 {
      BringMembers(ks, k, x);
    }
    assert more[0] == k by { BringFirst(ks, k); }
    forall i, j | 0 <= i < j < |more| ensures LastUse(log, more[i]) > LastUse(log, more[j]) {
      var y := Was(ks, k, j);
      if i > 0 {
        var x := Was(ks, k, i);
        assert LastUse(log[..n], ks[x]) > LastUse(log[..n], ks[y]);
      }
    }
  }

  lemma BringFirst<K>(ks: seq<K>, k: K)
    ensures Bring(ks, k) != [] && Bring(ks, k)[0] == k
  {
  }

  function First<T>(s: seq<T>, n: nat): seq<T> {
    if |s| <= n then s else s[..n]
  }

  /** Bringing a key to the front commutes with keeping only the first `capacity` keys. */
  lemma TouchKeys<K, V>(s: seq<(K, V)>, capacity: nat, a: Access<K, V>, ks: seq<K>)
    requires 1 <= capacity && Distinct(ks) && Keys(s) == First(ks, capacity)
    ensures Keys(Touch(s, capacity, a)) == First(Bring(ks, a.key), capacity)
  {
    if Lookup(s, a.key).Some? {
      TouchHit(s, capacity, a, ks);
    } else {
      TouchMiss(s, capacity, a, ks);
    }
  }

  lemma PositionUnique<K>(ks: seq<K>, m: nat)
    requires Distinct(ks) && m < |ks|
    ensures Position(ks, ks[m]) == m
  {
  }

  lemma FirstOfCut<K>(ks: seq<K>, capacity: nat, m: nat)
    requires m < |First(ks, capacity)|
    ensures First([ks[m]] + Cut(ks, m), capacity) == [ks[m]] + Cut(First(ks, capacity), m)
  {
  }

  lemma TouchHit<K, V>(s: seq<(K, V)>, capacity: nat, a: Access<K, V>, ks: seq<K>)
    requires 1 <= capacity && Distinct(ks) && Keys(s) == First(ks, capacity) && Lookup(s, a.key).Some?
    ensures Keys(Touch(s, capacity, a)) == First(Bring(ks, a.key), capacity)
  {
    assert Distinct(Keys(s));
    var m := ToFront(s, a.key);
    hide Distinct;
    assert Keys(s)[m] == ks[m] == a.key;
    PositionUnique(ks, m);
    var t := [(a.key, Lookup(s, a.key).value)] + Cut(s, m);
    assert Touch(s, capacity, a) == t;
    hide Touch, Lookup, Without;
    assert Keys(t) == [a.key] + Cut(Keys(s), m);
    FirstOfCut(ks, capacity, m);
  }

  lemma TouchMiss<K, V>(s: seq<(K, V)>, capacity: nat, a: Access<K, V>, ks: seq<K>)
    requires 1 <= capacity && Keys(s) == First(ks, capacity) && Lookup(s, a.key).None?
    ensures Keys(Touch(s, capacity, a)) == First(Bring(ks, a.key), capacity)
  {
    LookupNone(s, a.key);
    var kept := if |s| >= capacity then s[..|s| - 1] else s;
    assert Touch(s, capacity, a) == [(a.key, a.value)] + kept;
    BringMiss(ks, a.key, capacity);
    hide Touch, Lookup, Without, Bring;
    assert Keys([(a.key, a.value)] + kept) == [a.key] + Keys(kept);
    assert Keys(kept) == if |s| >= capacity then Keys(s)[..|s| - 1] else Keys(s);
  }

  lemma InFirst<K>(ks: seq<K>, capacity: nat, p: nat)
    requires p < |ks| && p < capacity
    ensures ks[p] in First(ks, capacity)
  {
    assert First(ks, capacity)[p] == ks[p];
  }

  /** A key that is not among the first comes in front of them. */
  lemma BringMiss<K>(ks: seq<K>, k: K, capacity: nat)
    requires 1 <= capacity && k !in First(ks, capacity)
    ensures First(Bring(ks, k), capacity) == [k] + if |ks| >= capacity then ks[..capacity - 1] else ks
  {
    if k in ks {
      var p := Position(ks, k);
      if p < capacity { InFirst(ks, capacity, p); }
      assert Bring(ks, k)[..capacity] == [k] + ks[..capacity - 1];
    }
  }

  lemma {:induction false} RecencyDistinct<K(!new), V>(ks: seq<K>, log: seq<Access<K, V>>)
    requires ByRecency(ks, log)
    ensures Distinct(ks)
  {
  }

  /** Under get-else-put the cache holds exactly the most recently accessed distinct keys, up to its capacity,
      the most recent first. */
  lemma {:induction false} HoldsMostRecent<K(!new), V>(capacity: nat, log: seq<Access<K, V>>)
    requires 1 <= capacity
    ensures ByRecency(Recent(log), log) && Keys(Accesses(capacity, log)) == First(Recent(log), capacity)
    decreases |log|
  {
    RecentIsByRecency(log);
    hide ByRecency;
    if log == [] {
    } else {
      var before := log[..|log| - 1];
      HoldsMostRecent(capacity, before);
      RecencyDistinct(Recent(before), before);
      TouchKeys(Accesses(capacity, before), capacity, log[|log| - 1], Recent(before));
    }
  }

  /** So a smaller cache always holds a prefix of what a larger one holds. */
  lemma SmallerIsPrefix<K(!new), V>(small: nat, large: nat, log: seq<Access<K, V>>)
    requires 1 <= small <= large
    ensures Keys(Accesses(small, log)) <= Keys(Accesses(large, log))
  {
    HoldsMostRecent(small, log);
    HoldsMostRecent(large, log);
  }

  // ---- the permission check ----------------------------------------------------------------------------------

  /** An application that is not a system application is refused outright. Any other token is granted if its
      verdict is 0; verdicts are computed once and then remembered. */
  method HasPerfPermission(cache: SocPerfLRUCache<int, int>, isHap: bool, isSystemApp: bool, accessToken: int, verified: int)
    returns (granted: bool)
    requires cache.Valid()
    modifies cache`lruList, cache`relationMap, cache.lruList
    ensures cache.Valid()
    ensures cache.Contents() == if isHap && !isSystemApp then old(cache.Contents())
      else Touch(old(cache.Contents()), cache.capacity, Access(accessToken, verified))
    ensures var known := Lookup(old(cache.Contents()), accessToken);
      granted <==> !(isHap && !isSystemApp) && (if known.Some? then known.value else verified) == 0
  {
    if isHap {
      if !isSystemApp {
        return false;
      }
    }
    hide SocPerfLRUCache.Valid, SocPerfLRUCache.Contents, Lookup, Without;
    var hasPermission := cache.Get(accessToken);
    if hasPermission.Some? {
      return hasPermission.value == 0;
    }
    cache.Put(accessToken, verified);
    granted := verified == 0;
  }

  /** If a token's verdict never changes, every remembered verdict is the right one. */
  lemma {:induction false} RemembersVerdicts<K, V>(capacity: nat, log: seq<Access<K, V>>, verdict: K -> V)
    requires 1 <= capacity && forall i :: 0 <= i < |log| ==> log[i].value == verdict(log[i].key)
    ensures forall i :: 0 <= i < |Accesses(capacity, log)| ==> Accesses(capacity, log)[i].1 == verdict(Accesses(capacity, log)[i].0)
    decreases |log|
  {
    if log != [] {
      var before, a := log[..|log| - 1], log[|log| - 1];
      RemembersVerdicts(capacity, before, verdict);
      var s := Accesses(capacity, before);
      if Lookup(s, a.key).Some? {
        var m := LookupFirst(s, a.key);
      }
      WithoutSubset(s, a.key);
      hide Lookup, Without;
      var t := Touch(s, capacity, a);
      forall i | 0 <= i < |t| ensures t[i].1 == verdict(t[i].0) {
        if i > 0 {
          assert t[i] in s;
        }
      }
    }
  }

  lemma {:induction false} WithoutSubset<K, V>(s: seq<(K, V)>, k: K)
    ensures forall i :: 0 <= i < |Without(s, k)| ==> Without(s, k)[i] in s
  {
    if s != [] {
      WithoutSubset(s[1..], k);
    }
  }
}
