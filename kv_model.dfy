/** The single-register model that the two Go validators hand to the
    linearizability checker (`kvModel`): the operation and event types, the
    initial state, the step function, and the two partition functions that
    split a history by key. Both validators declare the same model. */
module KvModel {
  import opened Wrappers
  import opened Text

  newtype uint8 = x: int | 0 <= x < 256

  /** kvInput: op 0 is a get, op 1 a put; any other op appends. */
  datatype KvInput = KvInput(op: uint8, key: string, value: string)

  /** kvOutput: the value a get returned (unused for a put). */
  datatype KvOutput = KvOutput(value: string)

  /** porcupine.Operation: client id, input, call time, output, return time. */
  datatype Operation = Operation(clientId: int, input: KvInput, call: int, output: KvOutput, ret: int)

  /** porcupine.Event: the call half or the return half of an operation,
      tied together by `id`. */
  datatype Event =
    | CallEvent(clientId: int, id: int, input: KvInput)
    | ReturnEvent(clientId: int, id: int, output: KvOutput)

  const GetOp: uint8 := 0
  const PutOp: uint8 := 1

  function KeyOf(op: Operation): string
  {
    op.input.key
  }

  // ---------------------------------------------------------------------
  // Init and Step

  /** The model tracks one key's value, which starts out empty. */
  function Init(): (state: string)
    ensures |state| == 0
  {
    ""
  }

  /** One step of the register: a get is accepted exactly when it read the
      current value and changes nothing; a put is always accepted and makes
      its value current; any other op is accepted and appends its value. */
  function Step(state: string, input: KvInput, output: KvOutput): (r: (bool, string))
    ensures input.op == GetOp ==> (r.0 <==> output.value == state) && r.1 == state
    ensures input.op == PutOp ==> r.0 && r.1 == input.value
    ensures input.op != GetOp && input.op != PutOp ==> r.0 && r.1 == state + input.value
  {
    if input.op == 0 then (output.value == state, state)
    else if input.op == 1 then (true, input.value)
    else (true, state + input.value)
  }

  /** Steps a sequence of operations in order from `state`; None at the
      first operation the model rejects. */
  function Replay(state: string, ops: seq<Operation>): Option<string>
    decreases |ops|
  {
    if ops == [] then Some(state)
    else
      var (ok, next) := Step(state, ops[0].input, ops[0].output);
      if ok then Replay(next, ops[1..]) else None
  }

  predicate PutsAndGets(ops: seq<Operation>)
  {
    forall i :: 0 <= i < |ops| ==> ops[i].input.op == GetOp || ops[i].input.op == PutOp
  }

  /** Reference register semantics: the value a register holds after the
      puts in `ops`, starting from `state`. */
  function Current(state: string, ops: seq<Operation>): string
    decreases |ops|
  {
    if ops == [] then state
    else if ops[|ops| - 1].input.op == PutOp then ops[|ops| - 1].input.value
    else Current(state, ops[..|ops| - 1])
  }

  /** Every get in `ops` read the value of the latest put before it. */
  ghost predicate ReadsLatest(state: string, ops: seq<Operation>)
  {
    forall i :: 0 <= i < |ops| && ops[i].input.op == GetOp ==> ops[i].output.value == Current(state, ops[..i])
  }

  lemma {:induction false} CurrentAfterFirst(state: string, ops: seq<Operation>)
    requires ops != [] && PutsAndGets(ops)
    ensures Current(state, ops) == Current(Step(state, ops[0].input, ops[0].output).1, ops[1..])
    decreases |ops|
  {
    if |ops| > 1 {
      var init := ops[..|ops| - 1];
      assert init[0] == ops[0] && init[1..] == ops[1..][..|ops[1..]| - 1];
      assert PutsAndGets(init) by {
        forall i | 0 <= i < |init| ensures init[i].input.op == GetOp || init[i].input.op == PutOp {
          assert init[i] == ops[i];
        }
      }
      CurrentAfterFirst(state, init);
    } else {
      assert ops[1..] == [];
      assert ops[..0] == [];
    }
  }

  /** Step, replayed over a put/get history from `state`, accepts exactly the
      histories in which every get read the latest put (or `state` when no
      put came before), and ends in the value of the latest put. */
  lemma {:induction false} ReplayIsRegister(state: string, ops: seq<Operation>)
    requires PutsAndGets(ops)
    ensures Replay(state, ops).Some? <==> ReadsLatest(state, ops)
    ensures Replay(state, ops).Some? ==> Replay(state, ops).value == Current(state, ops)
    decreases |ops|
  {
    if ops != [] {
      var next := Step(state, ops[0].input, ops[0].output).1;
      var rest := ops[1..];
      assert PutsAndGets(rest) by {
        forall i | 0 <= i < |rest| ensures rest[i].input.op == GetOp || rest[i].input.op == PutOp {
          assert rest[i] == ops[i + 1];
        }
      }
      ReplayIsRegister(next, rest);
      CurrentAfterFirst(state, ops);
      // Current over a prefix of ops that starts after the first step
      forall i | 1 <= i <= |ops|
        ensures Current(state, ops[..i]) == Current(next, rest[..i - 1])
      {
        var p := ops[..i];
        assert p[0] == ops[0] && p[1..] == rest[..i - 1];
        assert PutsAndGets(p) by {
          forall j | 0 <= j < |p| ensures p[j].input.op == GetOp || p[j].input.op == PutOp {
            assert p[j] == ops[j];
          }
        }
        CurrentAfterFirst(state, p);
      }
      assert ops[..0] == [];
      if ReadsLatest(state, ops) {
        forall i | 0 <= i < |rest| && rest[i].input.op == GetOp
          ensures rest[i].output.value == Current(next, rest[..i])
        {
          assert rest[i] == ops[i + 1];
        }
      }
      if Replay(state, ops).Some? {
        forall i | 0 <= i < |ops| && ops[i].input.op == GetOp
          ensures ops[i].output.value == Current(state, ops[..i])
        {
          if i > 0 {
            assert ops[i] == rest[i - 1];
          }
        }
      }
      assert ops == ops[..|ops|];
    }
  }

  // ---------------------------------------------------------------------
  // Partition: split a history of operations by key

  /** The operations of `history` on `key`, in history order. */
  function OnKey(history: seq<Operation>, key: string): (r: seq<Operation>)
    ensures |r| <= |history|
    ensures forall x :: x in r <==> x in history && KeyOf(x) == key
    ensures forall i :: 0 <= i < |r| ==> KeyOf(r[i]) == key
    decreases |history|
  {
    if history == [] then []
    else
      var init := history[..|history| - 1];
      var last := history[|history| - 1];
      assert history == init + [last];
      OnKey(init, key) + (if KeyOf(last) == key then [last] else [])
  }

  /** The keys the operations of `history` touch. */
  function KeysOf(history: seq<Operation>): set<string>
  {
    set i | 0 <= i < |history| :: KeyOf(history[i])
  }

  ghost predicate StrictlySorted(keys: seq<string>)
  {
    forall i, j :: 0 <= i < j < |keys| ==> Less(keys[i], keys[j])
  }

  /** What `Partition` returns for `history`: one non-empty group per key,
      the groups in ascending key order, each group the operations on its
      key in history order. */
  ghost predicate IsPartition(history: seq<Operation>, groups: seq<seq<Operation>>)
  {
    && (forall i :: 0 <= i < |groups| ==> groups[i] != [] && groups[i] == OnKey(history, KeyOf(groups[i][0])))
    && (forall i, j :: 0 <= i < j < |groups| ==> Less(KeyOf(groups[i][0]), KeyOf(groups[j][0])))
    && (set i | 0 <= i < |groups| :: KeyOf(groups[i][0])) == KeysOf(history)
  }

  lemma {:induction false} LessThanAll(k: string, keys: seq<string>)
    requires keys != [] && Less(k, keys[0]) && StrictlySorted(keys)
    ensures forall j :: 0 <= j < |keys| ==> Less(k, keys[j])
  {
    forall j | 0 < j < |keys| ensures Less(k, keys[j]) {
      LessTransitive(k, keys[0], keys[j]);
    }
  }

  /** Insertion of a new key into a strictly sorted list of keys. */
  function InsertSorted(keys: seq<string>, k: string): (r: seq<string>)
    requires StrictlySorted(keys) && k !in keys
    ensures StrictlySorted(r) && |r| == |keys| + 1
    ensures forall x :: x in r <==> x in keys || x == k
    decreases |keys|
  {
    if keys == [] then [k]
    else if Less(k, keys[0]) then
      LessThanAll(k, keys);
      [k] + keys
    else
      LessTotal(k, keys[0]);
      var rest := InsertSorted(keys[1..], k);
      assert forall x :: x in rest ==> Less(keys[0], x) by {
        forall x | x in rest ensures Less(keys[0], x) {
          if x != k {
            var j :| 0 <= j < |keys[1..]| && keys[1..][j] == x;
            assert keys[j + 1] == x;
          }
        }
      }
      var r := [keys[0]] + rest;
      assert forall i :: 1 <= i < |r| ==> r[i] in rest;
      assert keys == [keys[0]] + keys[1..];
      r
  }

  lemma {:induction false} KeysOfSnoc(history: seq<Operation>, v: Operation)
    ensures KeysOf(history + [v]) == KeysOf(history) + {KeyOf(v)}
  {
    var h := history + [v];
    forall x | x in KeysOf(h) ensures x in KeysOf(history) + {KeyOf(v)} {
      var i :| 0 <= i < |h| && KeyOf(h[i]) == x;
      if i < |history| { assert h[i] == history[i]; }
    }
    forall x | x in KeysOf(history) ensures x in KeysOf(h) {
      var i :| 0 <= i < |history| && KeyOf(history[i]) == x;
      assert h[i] == history[i];
    }
    assert KeyOf(h[|history|]) == KeyOf(v);
  }

  lemma {:induction false} OnKeySnoc(history: seq<Operation>, v: Operation, key: string)
    ensures OnKey(history + [v], key) == OnKey(history, key) + (if KeyOf(v) == key then [v] else [])
  {
    var h := history + [v];
    assert h[..|h| - 1] == history;
  }

  lemma {:induction false} OnKeyOfAbsentKey(history: seq<Operation>, key: string)
    requires key !in KeysOf(history)
    ensures OnKey(history, key) == []
  {
    var r := OnKey(history, key);
    if r != [] {
      OnKeyMember(history, key, r[0]);
    }
  }

  lemma {:induction false} OnKeyMember(history: seq<Operation>, key: string, x: Operation)
    requires x in OnKey(history, key)
    ensures key in KeysOf(history)
  {
    var i :| 0 <= i < |history| && history[i] == x;
    assert KeyOf(history[i]) == key;
  }

  /** The groups listed in the order of a strictly sorted list of all the
      history's keys form the partition. */
  lemma {:induction false} SortedGroupsPartition(history: seq<Operation>, keys: seq<string>, groups: seq<seq<Operation>>)
    requires StrictlySorted(keys)
    requires forall x :: x in keys <==> x in KeysOf(history)
    requires |groups| == |keys|
    requires forall i :: 0 <= i < |keys| ==> groups[i] == OnKey(history, keys[i])
    ensures IsPartition(history, groups)
  {
    forall i | 0 <= i < |groups|
      ensures groups[i] != [] && KeyOf(groups[i][0]) == keys[i]
    {
      var k := keys[i];
      assert k in KeysOf(history);
      var p :| 0 <= p < |history| && KeyOf(history[p]) == k;
      assert history[p] in OnKey(history, k);
    }
    assert (set i | 0 <= i < |groups| :: KeyOf(groups[i][0])) == KeysOf(history) by {
      forall x | x in KeysOf(history) ensures x in (set i | 0 <= i < |groups| :: KeyOf(groups[i][0])) {
        assert x in keys;
        var i :| 0 <= i < |keys| && keys[i] == x;
        assert KeyOf(groups[i][0]) == x;
      }
    }
  }

  /** The first loop of kvModel.Partition: the operations appended to a
      map under their keys. */
  method GroupByKey(history: seq<Operation>) returns (m: map<string, seq<Operation>>)
    ensures m.Keys == KeysOf(history)
    ensures forall k :: k in m ==> m[k] == OnKey(history, k)
  {
    m := map[];
    for n := 0 to |history|
      invariant m.Keys == KeysOf(history[..n])
      invariant forall k :: k in m ==> m[k] == OnKey(history[..n], k)
    {
      var v := history[n];
      var key := v.input.key;
      assert history[..n + 1] == history[..n] + [v];
      KeysOfSnoc(history[..n], v);
      if key !in m {
        OnKeyOfAbsentKey(history[..n], key);
      }
      m := m[key := (if key in m then m[key] else []) + [v]];
      forall k | k in m ensures m[k] == OnKey(history[..n + 1], k) {
        OnKeySnoc(history[..n], v, k);
      }
    }
    assert history[..|history|] == history;
  }

  /** The map's keys, taken in the map's own order and sorted as
      sort.Strings does. */
  method SortedKeys(s: set<string>) returns (keys: seq<string>)
    ensures StrictlySorted(keys)
    ensures forall x :: x in keys <==> x in s
  {
    keys := [];
    var remaining := s;
    while remaining != {}
      invariant remaining <= s
      invariant forall x :: x in keys <==> x in s && x !in remaining
      invariant StrictlySorted(keys)
      decreases remaining
    {
      var k :| k in remaining;
      keys := InsertSorted(keys, k);
      remaining := remaining - {k};
    }
  }

  /** kvModel.Partition: groups the operations by key into a map, sorts
      the map's keys, and lists each key's group in that order. */
  method Partition(history: seq<Operation>) returns (groups: seq<seq<Operation>>)
    ensures IsPartition(history, groups)
  {
    var m := GroupByKey(history);
    var keys := SortedKeys(m.Keys);
    groups := [];
    for i := 0 to |keys|
      invariant |groups| == i
      invariant forall j :: 0 <= j < i ==> groups[j] == OnKey(history, keys[j])
    {
      var k := keys[i];
      assert k in m && m[k] == OnKey(history, k);
      groups := groups + [m[k]];
    }
    SortedGroupsPartition(history, keys, groups);
  }

  /** Every operation of the history lands in exactly one group. */
  lemma {:induction false} PartitionPlacesOnce(history: seq<Operation>, groups: seq<seq<Operation>>, x: Operation)
    requires IsPartition(history, groups) && x in history
    ensures exists i :: 0 <= i < |groups| && x in groups[i]
    ensures forall i, j :: 0 <= i < |groups| && 0 <= j < |groups| && x in groups[i] && x in groups[j] ==> i == j
  {
    var p :| 0 <= p < |history| && history[p] == x;
    assert KeyOf(x) in KeysOf(history);
    var i :| 0 <= i < |groups| && KeyOf(groups[i][0]) == KeyOf(x);
    assert x in groups[i];
    forall i, j | 0 <= i < |groups| && 0 <= j < |groups| && x in groups[i] && x in groups[j]
      ensures i == j
    {
      assert KeyOf(groups[i][0]) == KeyOf(x) == KeyOf(groups[j][0]);
      if i < j {
        LessIrreflexive(KeyOf(x));
      } else if j < i {
        LessIrreflexive(KeyOf(x));
      }
    }
  }

  function Flatten(groups: seq<seq<Operation>>): seq<Operation>
  {
    if groups == [] then [] else groups[0] + Flatten(groups[1..])
  }

  lemma {:induction false} OnKeyCount(history: seq<Operation>, key: string, x: Operation)
    ensures multiset(OnKey(history, key))[x] == if KeyOf(x) == key then multiset(history)[x] else 0
    decreases |history|
  {
    if history != [] {
      var init := history[..|history| - 1];
      assert history == init + [history[|history| - 1]];
      OnKeyCount(init, key, x);
    }
  }

  lemma {:induction false} FlattenCount(history: seq<Operation>, groups: seq<seq<Operation>>, x: Operation)
    requires forall i :: 0 <= i < |groups| ==> groups[i] != [] && groups[i] == OnKey(history, KeyOf(groups[i][0]))
    requires forall i, j :: 0 <= i < j < |groups| ==> KeyOf(groups[i][0]) != KeyOf(groups[j][0])
    ensures multiset(Flatten(groups))[x] ==
      if exists i :: 0 <= i < |groups| && KeyOf(groups[i][0]) == KeyOf(x) then multiset(history)[x] else 0
    decreases |groups|
  {
    if groups != [] {
      var rest := groups[1..];
      GroupsTail(history, groups);
      FlattenCount(history, rest, x);
      OnKeyCount(history, KeyOf(groups[0][0]), x);
      assert multiset(Flatten(groups))[x] == multiset(groups[0])[x] + multiset(Flatten(rest))[x];
      GroupForCons(groups, KeyOf(x));
    }
  }

  /** Dropping the first group keeps the groups' shape. */
  lemma {:induction false} GroupsTail(history: seq<Operation>, groups: seq<seq<Operation>>)
    requires groups != []
    requires forall i :: 0 <= i < |groups| ==> groups[i] != [] && groups[i] == OnKey(history, KeyOf(groups[i][0]))
    requires forall i, j :: 0 <= i < j < |groups| ==> KeyOf(groups[i][0]) != KeyOf(groups[j][0])
    ensures var rest := groups[1..];
      && (forall i :: 0 <= i < |rest| ==> rest[i] != [] && rest[i] == OnKey(history, KeyOf(rest[i][0])))
      && (forall i, j :: 0 <= i < j < |rest| ==> KeyOf(rest[i][0]) != KeyOf(rest[j][0]))
  {
    var rest := groups[1..];
    assert forall i :: 0 <= i < |rest| ==> rest[i] == groups[i + 1];
  }

  /** A key has a group in a list of groups with distinct keys exactly when
      it is the first group's key or, only otherwise, when it has one among
      the rest. */
  lemma {:induction false} GroupForCons(groups: seq<seq<Operation>>, k: string)
    requires groups != [] && forall i :: 0 <= i < |groups| ==> groups[i] != []
    requires forall i, j :: 0 <= i < j < |groups| ==> KeyOf(groups[i][0]) != KeyOf(groups[j][0])
    ensures var rest := groups[1..];
      && ((exists i :: 0 <= i < |groups| && KeyOf(groups[i][0]) == k) <==>
          KeyOf(groups[0][0]) == k || exists i :: 0 <= i < |rest| && KeyOf(rest[i][0]) == k)
      && (KeyOf(groups[0][0]) == k ==> !exists i :: 0 <= i < |rest| && KeyOf(rest[i][0]) == k)
  {
    var rest := groups[1..];
    if exists i :: 0 <= i < |rest| && KeyOf(rest[i][0]) == k {
      var i :| 0 <= i < |rest| && KeyOf(rest[i][0]) == k;
      assert rest[i] == groups[i + 1];
    }
    if exists i :: 0 <= i < |groups| && KeyOf(groups[i][0]) == k {
      var i :| 0 <= i < |groups| && KeyOf(groups[i][0]) == k;
      if i > 0 { assert rest[i - 1] == groups[i]; }
    }
  }

  /** The groups, laid end to end, hold exactly the operations of the
      history, each as often as it occurs there. */
  lemma {:induction false} PartitionIsPermutation(history: seq<Operation>, groups: seq<seq<Operation>>)
    requires IsPartition(history, groups)
    ensures multiset(Flatten(groups)) == multiset(history)
  {
    forall i, j | 0 <= i < j < |groups| ensures KeyOf(groups[i][0]) != KeyOf(groups[j][0]) {
      LessIrreflexive(KeyOf(groups[i][0]));
    }
    forall x ensures multiset(Flatten(groups))[x] == multiset(history)[x] {
      FlattenCount(history, groups, x);
      if x in history {
        var p :| 0 <= p < |history| && history[p] == x;
        assert KeyOf(x) in KeysOf(history);
      }
    }
  }

  /** `a` occurs in `b` in the same order, possibly with gaps. */
  predicate Subsequence<T(==)>(a: seq<T>, b: seq<T>)
    decreases |b|
  {
    if a == [] then true
    else if b == [] then false
    else if a[|a| - 1] == b[|b| - 1] then Subsequence(a[..|a| - 1], b[..|b| - 1])
    else Subsequence(a, b[..|b| - 1])
  }

  /** Within a group, operations keep their history order. */
  lemma {:induction false} OnKeyKeepsOrder(history: seq<Operation>, key: string)
    ensures Subsequence(OnKey(history, key), history)
    decreases |history|
  {
    if history != [] {
      var init := history[..|history| - 1];
      var last := history[|history| - 1];
      OnKeyKeepsOrder(init, key);
      var g := OnKey(history, key);
      if KeyOf(last) == key {
        assert g[..|g| - 1] == OnKey(init, key);
      } else if g != [] {
        assert KeyOf(g[|g| - 1]) == key;
        assert g == OnKey(init, key);
        assert g[|g| - 1] != last;
      }
    }
  }

  // ---------------------------------------------------------------------
  // PartitionEvent: split a history of call and return events by key

  /** The Go loop's `match` map (id -> key) after the events: each call
      records its key under its id, overwriting an earlier call's. */
  function Matches(events: seq<Event>): map<int, string>
    decreases |events|
  {
    if events == [] then map[]
    else
      var m := Matches(events[..|events| - 1]);
      var last := events[|events| - 1];
      if last.CallEvent? then m[last.id := last.input.key] else m
  }

  /** The key the loop files the last event under: a call under its own
      key, a return under the key matched to its id, or "" (Go's zero value)
      when no call with that id came before. */
  function FiledKey(events: seq<Event>): string
    requires events != []
  {
    var last := events[|events| - 1];
    if last.CallEvent? then last.input.key
    else
      var m := Matches(events[..|events| - 1]);
      if last.id in m then m[last.id] else ""
  }

  /** The events filed under `key`, in history order. */
  function FiledUnder(events: seq<Event>, key: string): seq<Event>
    decreases |events|
  {
    if events == [] then []
    else FiledUnder(events[..|events| - 1], key) + (if FiledKey(events) == key then [events[|events| - 1]] else [])
  }

  /** The keys some event is filed under. */
  function FiledKeys(events: seq<Event>): set<string>
    decreases |events|
  {
    if events == [] then {} else FiledKeys(events[..|events| - 1]) + {FiledKey(events)}
  }

  /** kvModel.PartitionEvent: files each call under its key and each return
      under the key of the call with the same id, then lists the groups in
      the map's own (unspecified) order, reported in `order`. */
  method PartitionEvent(history: seq<Event>) returns (groups: seq<seq<Event>>, ghost order: seq<string>)
    ensures |groups| == |FiledKeys(history)|
    ensures forall i :: 0 <= i < |groups| ==> exists k :: k in FiledKeys(history) && groups[i] == FiledUnder(history, k)
    ensures |groups| == |order|
    ensures forall i, j :: 0 <= i < j < |order| ==> order[i] != order[j]
    ensures forall k :: k in order <==> k in FiledKeys(history)
    ensures forall i :: 0 <= i < |groups| ==> groups[i] == FiledUnder(history, order[i])
  {
    var m := FileEvents(history);
    groups, order := ListGroups(m);
    forall i | 0 <= i < |groups|
      ensures exists k :: k in FiledKeys(history) && groups[i] == FiledUnder(history, k)
    {
      assert order[i] in FiledKeys(history) && groups[i] == FiledUnder(history, order[i]);
    }
  }

  /** The filing loop of partitionEvent: the map from key to the events
      filed under it. */
  method FileEvents(history: seq<Event>) returns (m: map<string, seq<Event>>)
    ensures m.Keys == FiledKeys(history)
    ensures forall k :: k in m ==> m[k] == FiledUnder(history, k)
  {
    m := map[];
    var matched: map<int, string> := map[];
    for n := 0 to |history|
      invariant matched == Matches(history[..n])
      invariant m.Keys == FiledKeys(history[..n])
      invariant forall k :: k in m ==> m[k] == FiledUnder(history[..n], k)
    {
      var v := history[n];
      ghost var prefix := history[..n + 1];
      assert prefix[..n] == history[..n] && prefix[n] == v;
      var key;
      if v.CallEvent? {
        key := v.input.key;
        matched := matched[v.id := key];
      } else {
        key := if v.id in matched then matched[v.id] else "";
      }
      FileStep(prefix, m, key);
      m := m[key := (if key in m then m[key] else []) + [v]];
    }
    assert history[..|history|] == history;
  }

  /** The map's groups, one per key, in some order of the keys. */
  method ListGroups(m: map<string, seq<Event>>) returns (groups: seq<seq<Event>>, ghost order: seq<string>)
    ensures |groups| == |m|
    ensures forall i :: 0 <= i < |groups| ==> exists k :: k in m && groups[i] == m[k]
    ensures |groups| == |order|
    ensures forall i, j :: 0 <= i < j < |order| ==> order[i] != order[j]
    ensures forall k :: k in order <==> k in m
    ensures forall i :: 0 <= i < |groups| ==> order[i] in m && groups[i] == m[order[i]]
  {
    groups := [];
    order := [];
    var remaining := m.Keys;
    while remaining != {}
      invariant remaining <= m.Keys
      invariant |groups| == |order| && |order| + |remaining| == |m.Keys|
      invariant forall k :: k in order <==> k in m.Keys && k !in remaining
      invariant forall i, j :: 0 <= i < j < |order| ==> order[i] != order[j]
      invariant forall i :: 0 <= i < |groups| ==> order[i] in m && groups[i] == m[order[i]]
      decreases remaining
    {
      var k :| k in remaining;
      groups := groups + [m[k]];
      order := order + [k];
      remaining := remaining - {k};
    }
    assert |m| == |m.Keys|;
    forall i | 0 <= i < |groups| ensures exists k :: k in m && groups[i] == m[k] {
      assert order[i] in m && groups[i] == m[order[i]];
    }
  }

  /** One step of the filing loop: adding the last event to the map of
      the earlier ones under its filed key gives the map of all of them. */
  lemma {:induction false} FileStep(events: seq<Event>, m: map<string, seq<Event>>, key: string)
    requires events != [] && key == FiledKey(events)
    requires m.Keys == FiledKeys(events[..|events| - 1])
    requires forall k :: k in m ==> m[k] == FiledUnder(events[..|events| - 1], k)
    ensures var m' := m[key := (if key in m then m[key] else []) + [events[|events| - 1]]];
      m'.Keys == FiledKeys(events) && forall k :: k in m' ==> m'[k] == FiledUnder(events, k)
  {
    var init := events[..|events| - 1];
    var last := events[|events| - 1];
    var before := if key in m then m[key] else [];
    var m' := m[key := before + [last]];
    FiledKeysSnoc(events);
    assert m'.Keys == m.Keys + {key};
    if key !in m {
      FiledUnderEmpty(init, key);
    }
    assert before == FiledUnder(init, key);
    forall k | k in m' ensures m'[k] == FiledUnder(events, k) {
      FiledUnderSnoc(events, k);
      if k == key {
        assert m'[k] == before + [last];
      } else {
        assert m'[k] == m[k] == FiledUnder(init, k);
      }
    }
  }

  lemma {:induction false} FiledKeysSnoc(events: seq<Event>)
    requires events != []
    ensures FiledKeys(events) == FiledKeys(events[..|events| - 1]) + {FiledKey(events)}
  {
  }

  lemma {:induction false} FiledUnderSnoc(events: seq<Event>, key: string)
    requires events != []
    ensures FiledUnder(events, key) ==
      FiledUnder(events[..|events| - 1], key) + (if FiledKey(events) == key then [events[|events| - 1]] else [])
  {
  }

  lemma {:induction false} FiledUnderEmpty(events: seq<Event>, key: string)
    requires key !in FiledKeys(events)
    ensures FiledUnder(events, key) == []
    decreases |events|
  {
    if events != [] {
      FiledUnderEmpty(events[..|events| - 1], key);
    }
  }

  /** The `match` entry for an id is the key of the latest call with that
      id, as long as no later call reused the id. */
  lemma {:induction false} MatchesLatestCall(events: seq<Event>, c: nat, n: nat)
    requires c < n <= |events|
    requires events[c].CallEvent?
    requires forall j :: c < j < n ==> !(events[j].CallEvent? && events[j].id == events[c].id)
    ensures events[c].id in Matches(events[..n])
    ensures Matches(events[..n])[events[c].id] == events[c].input.key
    decreases n
  {
    var p := events[..n];
    assert p[..|p| - 1] == events[..n - 1] && p[|p| - 1] == events[n - 1];
    if n > c + 1 {
      MatchesLatestCall(events, c, n - 1);
    }
  }

  /** A return event is filed in the same group as the call with the same
      id (the latest such call before it). */
  lemma {:induction false} ReturnFiledWithItsCall(events: seq<Event>, c: nat, r: nat)
    requires c < r < |events|
    requires events[c].CallEvent? && events[r].ReturnEvent? && events[r].id == events[c].id
    requires forall j :: c < j < r ==> !(events[j].CallEvent? && events[j].id == events[c].id)
    ensures FiledKey(events[..r + 1]) == FiledKey(events[..c + 1]) == events[c].input.key
  {
    MatchesLatestCall(events, c, r);
    var p := events[..r + 1];
    assert p[..|p| - 1] == events[..r] && p[|p| - 1] == events[r];
    assert events[..c + 1][c] == events[c];
  }

  /** A return whose id no earlier call carried is filed under "". */
  lemma {:induction false} OrphanReturnFiledUnderEmptyKey(events: seq<Event>, r: nat)
    requires r < |events| && events[r].ReturnEvent?
    requires forall j :: 0 <= j < r ==> !(events[j].CallEvent? && events[j].id == events[r].id)
    ensures FiledKey(events[..r + 1]) == ""
  {
    var p := events[..r + 1];
    assert p[..|p| - 1] == events[..r] && p[|p| - 1] == events[r];
    MatchesWithoutCall(events, r, events[r].id);
  }

  lemma {:induction false} MatchesWithoutCall(events: seq<Event>, n: nat, id: int)
    requires n <= |events|
    requires forall j :: 0 <= j < n ==> !(events[j].CallEvent? && events[j].id == id)
    ensures id !in Matches(events[..n])
    decreases n
  {
    if n > 0 {
      var p := events[..n];
      assert p[..|p| - 1] == events[..n - 1] && p[|p| - 1] == events[n - 1];
      MatchesWithoutCall(events, n - 1, id);
    }
  }
}
