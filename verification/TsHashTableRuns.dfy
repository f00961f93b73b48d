/** Every sequence of table operations, against a plain map. */
module TsHashTableRuns {
  import opened Bits
  import opened TsHashTable

  datatype Op<K, V> =
    | Add(key: K, val: V)
    | Get(key: K, fallback: V)
    | Contains(key: K)
    | Replace(key: K, val: V)
    | Remove(key: K)
    | Steal(key: K, fallback: V)

  /** What an operation answers: whether the key was present, and the value it hands out. */
  datatype Answer<V> = Flag(found: bool) | Value(found: bool, val: V)

  /** A map as the operations change it. */
  function Changed<K(==), V>(m: map<K, V>, op: Op<K, V>): map<K, V> {
    match op
    case Add(k, v) => m[k := v]
    case Replace(k, v) => if k in m then m[k := v] else m
    case Remove(k) => m - {k}
    case Steal(k, _) => m - {k}
    case _ => m
  }

  function Answered<K(==), V>(m: map<K, V>, op: Op<K, V>): Answer<V> {
    match op
    case Get(k, v) => Value(k in m, if k in m then m[k] else v)
    case Steal(k, v) => Value(k in m, if k in m then m[k] else v)
    case _ => Flag(op.key in m)
  }

  function Final<K(==), V>(ops: seq<Op<K, V>>): map<K, V> {
    if ops == [] then map[] else Changed(Final(ops[..|ops| - 1]), ops[|ops| - 1])
  }

  function Answers<K(==), V>(ops: seq<Op<K, V>>): seq<Answer<V>> {
    if ops == [] then []
    else Answers(ops[..|ops| - 1]) + [Answered(Final(ops[..|ops| - 1]), ops[|ops| - 1])]
  }

  function Adds<K, V>(ops: seq<Op<K, V>>): nat {
    if ops == [] then 0 else Adds(ops[..|ops| - 1]) + if ops[|ops| - 1].Add? then 1 else 0
  }

  /** One operation on a real table does to its map, and answers, what the map semantics says. */
  method Perform<K(==), V>(t: Table<K, V>, op: Op<K, V>) returns (answer: Answer<V>)
    requires t.Valid()
    modifies t, t.table, t.nodes
    ensures t.Valid() && (t.table == old(t.table) || fresh(t.table)) && fresh(t.nodes - old(t.nodes))
    ensures t.model == Changed(old(t.model), op) && answer == Answered(old(t.model), op)
    ensures t.length == if op.Add? && 4 * old(t.capacity) >= 3 * old(t.length) then 2 * old(t.length) else old(t.length)
  {
    hide Table.Valid;
    match op {
      case Add(k, v) =>
        var found := t.Add(k, v);
        answer := Flag(found);
      case Get(k, v) =>
        var found, val := t.Get(k, v);
        answer := Value(found, val);
      case Contains(k) =>
        var found := t.Contains(k);
        answer := Flag(found);
      case Replace(k, v) =>
        var found := t.Replace(k, v);
        answer := Flag(found);
      case Remove(k) =>
        var found := t.Remove(k);
        answer := Flag(found);
      case Steal(k, v) =>
        var found, val := t.Steal(k, v);
        answer := Value(found, val);
    }
  }

  lemma ChangedSize<K, V>(m: map<K, V>, op: Op<K, V>)
    ensures |Changed(m, op)| <= |m| + if op.Add? then 1 else 0
  {
  }

  /**
    A new table run through any operations answers as a map does and holds the map's
    entries; its length is 16 doubled some number of times, it is at most three quarters
    full, the buckets moved so far are exactly three quarters of what the length has
    grown by, and so never more than two for each `add`.
   */
  method RunTable<K(==), V>(hashOf: K -> nat, ops: seq<Op<K, V>>) returns (t: Table<K, V>, answers: seq<Answer<V>>)
    ensures t.Valid() && t.hashOf == hashOf
    ensures t.model == Final(ops) && answers == Answers(ops)
    ensures exists k :: t.length == 16 * Shl(1, k)
    ensures t.capacity == |Final(ops)| && 4 * t.capacity <= 3 * t.length
    ensures 4 * t.moves == 3 * (t.length - 16) && t.moves <= 2 * Adds(ops)
  {
    hide Final, Adds, Answers, Table.Valid, Changed, Answered, Shl;
    t := new Table(hashOf);
    answers := [];
    StartRun<K, V>(ops[..0]);
    var i := 0;
    while i < |ops|
      invariant 0 <= i <= |ops|
      invariant fresh(t) && fresh(t.table) && fresh(t.nodes) && t.Valid() && t.hashOf == hashOf
      invariant t.model == Final(ops[..i]) && answers == Answers(ops[..i])
      invariant |t.model| <= Adds(ops[..i]) && 3 * t.length <= 48 + 8 * Adds(ops[..i])
    {
      StepRun(ops[..i + 1]);
      assert ops[..i + 1][..i] == ops[..i];
      ChangedSize(t.model, ops[i]);
      Resized(t);
      var answer := Perform(t, ops[i]);
      answers := answers + [answer];
      i := i + 1;
    }
    assert ops[..i] == ops;
    Resized(t);
  }

  lemma StartRun<K, V>(ops: seq<Op<K, V>>)
    requires ops == []
    ensures Final(ops) == map[] && Answers(ops) == [] && Adds(ops) == 0
  {
  }

  lemma StepRun<K, V>(ops: seq<Op<K, V>>)
    requires ops != []
    ensures var before, op := ops[..|ops| - 1], ops[|ops| - 1];
      && Final(ops) == Changed(Final(before), op)
      && Answers(ops) == Answers(before) + [Answered(Final(before), op)]
      && Adds(ops) == Adds(before) + if op.Add? then 1 else 0
  {
  }

  /** What `Valid` says of the length, the load and the buckets moved. */
  lemma Resized<K, V>(t: Table<K, V>)
    requires t.Valid()
    ensures t.capacity == |t.model| && 4 * t.capacity <= 3 * t.length
    ensures 4 * t.moves == 3 * (t.length - 16)
    ensures exists k :: t.length == 16 * Shl(1, k)
  {
    hide Core;
    SixteenTimes(t.log);
    assert t.length == 16 * Shl(1, t.log - 4);
  }

  lemma {:induction false} SixteenTimes(log: nat)
    requires log >= 4
    ensures Shl(1, log) == 16 * Shl(1, log - 4)
  {
    if log > 4 {
      SixteenTimes(log - 1);
    } else {
      assert Shl(1, 2) == 4;
    }
  }
}
