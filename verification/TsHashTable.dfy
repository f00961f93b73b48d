/**
  `TsHashTable`: separate chaining over an array of linked buckets, doubled in place.
  The reader/writer lock makes each operation atomic, so operations are sequential.
  The hash is any function from keys to 32-bit words.
 */
module TsHashTable {
  import opened Bits

  class Bucket<K, V> {
    const hash: nat
    const key: K
    var val: V
    var next: Bucket?<K, V>

    constructor (hash: nat, key: K, val: V, next: Bucket?<K, V>)
      ensures this.hash == hash && this.key == key && this.val == val && this.next == next
    {
      this.hash, this.key, this.val, this.next := hash, key, val, next;
    }
  }

  /** `get_place`. */
  function Place(length: nat, hash: nat): nat
    requires length > 0
  {
    And(hash, length - 1)
  }

  /** For a power of two the place is the remainder, so it is an index. */
  lemma PlaceIsRemainder(log: nat, hash: nat)
    ensures Place(Shl(1, log), hash) == hash % Shl(1, log) < Shl(1, log)
  {
    hide And, Low, Shl;
    AndOnes(hash, log);
    HighLow(hash, log);
    LowIsRemainder(hash, log);
  }

  /** In an array of twice the length a hash is at its old place or one old length further. */
  predicate LandsNear(length: nat, hash: nat) {
    && length > 0
    && (Place(2 * length, hash) == Place(length, hash) || Place(2 * length, hash) == Place(length, hash) + length)
  }

  lemma PlaceDoubles(log: nat, hash: nat)
    ensures LandsNear(Shl(1, log), hash)
  {
    hide And, Low;
    AndOnes(hash, log);
    AndOnes(hash, log + 1);
    LowDoubles(hash, log);
    assert Shl(1, log + 1) == 2 * Shl(1, log);
  }

  lemma {:induction false} LowDoubles(a: nat, k: nat)
    ensures Low(a, k + 1) == Low(a, k) || Low(a, k + 1) == Low(a, k) + Shl(1, k)
  {
    if k == 0 {
      assert Low(a / 2, 0) == 0;
    } else {
      LowDoubles(a / 2, k - 1);
    }
  }

  // ---------- Chains ----------

  function At<K, V>(chain: seq<Bucket<K, V>>, j: nat): Bucket?<K, V> {
    if j < |chain| then chain[j] else null
  }

  /** The list that starts at `head` is `chain`; being finite it is acyclic. */
  ghost predicate Linked<K, V>(head: Bucket?<K, V>, chain: seq<Bucket<K, V>>)
    reads chain`next
  {
    head == At(chain, 0) && forall j | 0 <= j < |chain| :: chain[j].next == At(chain, j + 1)
  }

  lemma LinkedNext<K, V>(head: Bucket?<K, V>, chain: seq<Bucket<K, V>>, j: nat)
    requires Linked(head, chain)
    ensures head == At(chain, 0)
    ensures j < |chain| ==> chain[j].next == At(chain, j + 1)
  {
  }

  ghost predicate KeysDiffer<K, V>(chain: seq<Bucket<K, V>>) {
    forall i, j | 0 <= i < j < |chain| :: chain[i].key != chain[j].key
  }

  /** Every bucket is in the chain its hash selects, and no key occurs twice. */
  ghost predicate Placed<K, V>(chains: seq<seq<Bucket<K, V>>>, length: nat, hashOf: K -> nat) {
    && length > 0 && |chains| == length
    && (forall i, b | 0 <= i < length && b in chains[i] :: b.hash == hashOf(b.key) && Place(length, b.hash) == i)
    && (forall i | 0 <= i < length :: KeysDiffer(chains[i]))
  }

  /** `nodes` are the buckets of the chains. */
  ghost predicate Covers<K, V>(nodes: set<Bucket<K, V>>, chains: seq<seq<Bucket<K, V>>>, length: nat)
    requires length > 0 && |chains| == length
  {
    && (forall i, b | 0 <= i < length && b in chains[i] :: b in nodes)
    && (forall b | b in nodes :: Place(length, b.hash) < length && b in chains[Place(length, b.hash)])
  }

  /** An array of lists that holds exactly `nodes`, each in its place. */
  ghost predicate Core<K, V>(data: array<Bucket?<K, V>>, chains: seq<seq<Bucket<K, V>>>, nodes: set<Bucket<K, V>>,
                             length: nat, hashOf: K -> nat)
    reads data, nodes`next
  {
    && length > 0 && data.Length == length
    && Placed(chains, length, hashOf)
    && Covers(nodes, chains, length)
    && (forall i | 0 <= i < length :: Linked(data[i], chains[i]))
  }

  /** `b->next = data[j]; data[j] = b` puts a bucket in front of its chain. */
  method PushFront<K, V>(data: array<Bucket?<K, V>>, ghost chains: seq<seq<Bucket<K, V>>>,
                         ghost nodes: set<Bucket<K, V>>,
                         length: nat, ghost hashOf: K -> nat, b: Bucket<K, V>, j: nat)
    requires Core(data, chains, nodes, length, hashOf)
    requires j == Place(length, b.hash) < length && b.hash == hashOf(b.key)
    requires b !in nodes && forall c | c in nodes :: c.key != b.key
    modifies data, b`next
    ensures |chains| == length
    ensures Core(data, chains[j := [b] + chains[j]], nodes + {b}, length, hashOf)
    ensures Total(chains[j := [b] + chains[j]]) == Total(chains) + 1
  {
    hide Place, Total;
    TotalUpdate(chains, j, [b] + chains[j]);
    PushedPlaces(chains, nodes, length, hashOf, b, j);
    label before:
    b.next := data[j];
    data[j] := b;
    PushedLinks(chains[j], b, old@before(data[j]));
    forall i | 0 <= i < length ensures Linked(data[i], chains[j := [b] + chains[j]][i]) {
      assert old@before(Linked(data[i], chains[i]));
    }
  }

  lemma PushedLinks<K, V>(chain: seq<Bucket<K, V>>, b: Bucket<K, V>, head: Bucket?<K, V>)
    requires Linked(head, chain) && b.next == head
    ensures Linked(b, [b] + chain)
  {
  }

  lemma PushedPlaces<K, V>(chains: seq<seq<Bucket<K, V>>>, nodes: set<Bucket<K, V>>, length: nat, hashOf: K -> nat,
                           b: Bucket<K, V>, j: nat)
    requires length > 0 && Placed(chains, length, hashOf) && Covers(nodes, chains, length)
    requires j == Place(length, b.hash) < length && b.hash == hashOf(b.key)
    requires forall c | c in nodes :: c.key != b.key
    ensures Placed(chains[j := [b] + chains[j]], length, hashOf)
    ensures Covers(nodes + {b}, chains[j := [b] + chains[j]], length)
  {
  }

  /** A chain without one of its buckets. */
  function Without<T>(c: seq<T>, j: nat): seq<T>
    requires j < |c|
  {
    c[..j] + c[j + 1..]
  }

  lemma WithoutFacts<K, V>(chain: seq<Bucket<K, V>>, j: nat)
    requires j < |chain| && KeysDiffer(chain)
    ensures KeysDiffer(Without(chain, j))
    ensures forall b :: b in Without(chain, j) <==> b in chain && b != chain[j]
  {
  }

  lemma UnlinkedPlaces<K, V>(chains: seq<seq<Bucket<K, V>>>, nodes: set<Bucket<K, V>>, length: nat, hashOf: K -> nat,
                             i: nat, j: nat)
    requires length > 0 && Placed(chains, length, hashOf) && Covers(nodes, chains, length)
    requires i < length && j < |chains[i]|
    ensures var chains' := chains[i := Without(chains[i], j)];
      && Placed(chains', length, hashOf)
      && Covers(nodes - {chains[i][j]}, chains', length)
      && Total(chains') + 1 == Total(chains)
  {
    hide Place, Total, KeysDiffer;
    var rest := Without(chains[i], j);
    var chains' := chains[i := rest];
    TotalUpdate(chains, i, rest);
    WithoutFacts(chains[i], j);
    WithoutLength(chains[i], j);
    assert chains[i][j] in chains[i];
    assert forall b | b in rest :: b in chains[i];
  }

  lemma WithoutLength<T>(c: seq<T>, j: nat)
    requires j < |c|
    ensures |Without(c, j)| + 1 == |c|
  {
  }

  /** The links of a chain after one bucket has been bypassed. */
  lemma UnlinkedLinks<K, V>(head: Bucket?<K, V>, chain: seq<Bucket<K, V>>, j: nat)
    requires j < |chain| && KeysDiffer(chain)
    requires head == if j == 0 then At(chain, 1) else At(chain, 0)
    requires forall x | 0 <= x < |chain| :: chain[x].next == if x == j - 1 then At(chain, j + 1) else At(chain, x + 1)
    ensures Linked(head, Without(chain, j))
  {
  }

  /** Taking the `j`-th bucket out of chain `index` in place. */
  method Bypass<K, V>(data: array<Bucket?<K, V>>, ghost chains: seq<seq<Bucket<K, V>>>, ghost nodes: set<Bucket<K, V>>,
                      ghost length: nat, ghost hashOf: K -> nat,
                      index: nat, previous: Bucket?<K, V>, b: Bucket<K, V>, ghost j: nat)
    requires Core(data, chains, nodes, length, hashOf) && index < length
    requires j < |chains[index]| && b == chains[index][j]
    requires previous == if j == 0 then null else chains[index][j - 1]
    modifies data, nodes`next
    ensures Core(data, chains[index := Without(chains[index], j)], nodes - {b}, length, hashOf)
    ensures Total(chains[index := Without(chains[index], j)]) + 1 == Total(chains)
  {
    hide Total, Place, Covers, Placed;
    OneChain(chains, length, hashOf, index);
    ghost var chain := chains[index];
    UnlinkedPlaces(chains, nodes, length, hashOf, index, j);
    InNodes(chains, nodes, length, index, chain);
    assert b in chain && (previous != null ==> previous in chain);
    assert Linked(data[index], chain) && KeysDiffer(chain);
    label before:
    if previous != null {
      previous.next := b.next;
    } else {
      data[index] := b.next;
    }
    UnlinkedLinks(data[index], chain, j);
    forall i | 0 <= i < length && i != index ensures Linked(data[i], chains[i]) {
      assert old@before(Linked(data[i], chains[i]));
      assert previous != null ==> previous !in chains[i];
    }
  }

  lemma OneChain<K, V>(chains: seq<seq<Bucket<K, V>>>, length: nat, hashOf: K -> nat, i: nat)
    requires Placed(chains, length, hashOf) && i < length
    ensures |chains| == length && KeysDiffer(chains[i])
    ensures forall x, b | 0 <= x < length && x != i && b in chains[i] :: b !in chains[x]
  {
    forall x, b | 0 <= x < length && x != i && b in chains[i] ensures b !in chains[x] {
      assert Place(length, b.hash) == i;
    }
  }

  lemma InNodes<K, V>(chains: seq<seq<Bucket<K, V>>>, nodes: set<Bucket<K, V>>, length: nat, i: nat,
                      chain: seq<Bucket<K, V>>)
    requires length > 0 && |chains| == length && Covers(nodes, chains, length) && i < length && chain == chains[i]
    ensures forall b | b in chain :: b in nodes
  {
  }

  function Total<T>(chains: seq<seq<T>>): nat {
    if chains == [] then 0 else |chains[0]| + Total(chains[1..])
  }

  lemma {:induction false} TotalUpdate<T>(chains: seq<seq<T>>, i: nat, c: seq<T>)
    requires i < |chains|
    ensures Total(chains[i := c]) + |chains[i]| == Total(chains) + |c|
  {
    if i == 0 {
      assert chains[0 := c][1..] == chains[1..];
    } else {
      assert chains[i := c][1..] == chains[1..][i - 1 := c];
      TotalUpdate(chains[1..], i - 1, c);
    }
  }

  lemma {:induction false} TotalStep<T>(chains: seq<seq<T>>, i: nat)
    requires i < |chains|
    ensures Total(chains[..i + 1]) == Total(chains[..i]) + |chains[i]|
  {
    if i == 0 {
      assert chains[..1][1..] == [];
    } else {
      assert chains[..i + 1][1..] == chains[1..][..i] && chains[..i][1..] == chains[1..][..i - 1];
      TotalStep(chains[1..], i - 1);
    }
  }

  lemma {:induction false} TotalEmpty<T>(chains: seq<seq<T>>)
    requires forall i | 0 <= i < |chains| :: chains[i] == []
    ensures Total(chains) == 0
  {
    if chains != [] {
      TotalEmpty(chains[1..]);
    }
  }

  /** All buckets, chain after chain. */
  function Flatten<T>(chains: seq<seq<T>>): seq<T> {
    if chains == [] then [] else chains[0] + Flatten(chains[1..])
  }

  lemma {:induction false} FlattenSize<T>(chains: seq<seq<T>>)
    ensures |Flatten(chains)| == Total(chains)
  {
    if chains != [] {
      FlattenSize(chains[1..]);
    }
  }

  lemma FlattenNothing<T>(chains: seq<seq<T>>)
    ensures chains == [] ==> Flatten(chains) == []
  {
  }

  lemma {:induction false} FlattenSplit<T>(chains: seq<seq<T>>, i: nat)
    requires i <= |chains|
    ensures Flatten(chains) == Flatten(chains[..i]) + Flatten(chains[i..])
  {
    if i == 0 {
      assert chains[..0] == [] && chains[0..] == chains;
    } else {
      FlattenSplit(chains[1..], i - 1);
      assert chains[..i][1..] == chains[1..][..i - 1] && chains[i..] == chains[1..][i - 1..];
    }
  }

  lemma FlattenStep<T>(chains: seq<seq<T>>, i: nat)
    requires i < |chains|
    ensures Flatten(chains[..i + 1]) == Flatten(chains[..i]) + chains[i]
  {
    FlattenSplit(chains[..i + 1], i);
    assert chains[..i + 1][..i] == chains[..i] && chains[..i + 1][i..] == [chains[i]];
    assert Flatten([chains[i]]) == chains[i] + Flatten([]);
  }

  lemma {:induction false} FlattenPlaced<K, V>(chains: seq<seq<Bucket<K, V>>>, nodes: set<Bucket<K, V>>, length: nat,
                                               hashOf: K -> nat, i: nat)
    requires Placed(chains, length, hashOf) && Covers(nodes, chains, length) && i <= length
    ensures forall b :: b in Flatten(chains[..i]) <==> b in nodes && Place(length, b.hash) < i
    ensures var f := Flatten(chains[..i]); forall x, y | 0 <= x < y < |f| :: f[x] != f[y]
  {
    hide Place;
    if i > 0 {
      FlattenPlaced(chains, nodes, length, hashOf, i - 1);
      FlattenStep(chains, i - 1);
      var old', c := Flatten(chains[..i - 1]), chains[i - 1];
      assert KeysDiffer(c);
      forall x | 0 <= x < |c| ensures c[x] !in old' {
        assert c[x] in c;
      }
    }
  }

  lemma PlacesInRange<K, V>(chains: seq<seq<Bucket<K, V>>>, nodes: set<Bucket<K, V>>, length: nat, hashOf: K -> nat)
    requires Placed(chains, length, hashOf) && Covers(nodes, chains, length)
    ensures |chains| == length
    ensures forall b | b in nodes :: Place(length, b.hash) < length
  {
  }

  /** Equal keys mean equal buckets. */
  lemma SameKey<K, V>(chains: seq<seq<Bucket<K, V>>>, length: nat, hashOf: K -> nat, b: Bucket<K, V>,
                      c: Bucket<K, V>, i: nat, j: nat)
    requires Placed(chains, length, hashOf) && i < length && j < length
    requires b in chains[i] && c in chains[j] && b.key == c.key
    ensures b == c && i == j
  {
  }

  /** The buckets hold exactly the entries of the map. */
  ghost predicate Holds<K, V>(nodes: set<Bucket<K, V>>, model: map<K, V>)
    reads nodes`val
  {
    && (forall b | b in nodes :: b.key in model && model[b.key] == b.val)
    && KeysCovered(nodes, model)
  }

  ghost predicate KeysCovered<K, V>(nodes: set<Bucket<K, V>>, model: map<K, V>) {
    forall k | k in model :: exists b :: b in nodes && b.key == k
  }

  lemma HoldsInsert<K, V>(nodes: set<Bucket<K, V>>, model: map<K, V>, b: Bucket<K, V>)
    requires Holds(nodes, model) && b.key !in model
    ensures Holds(nodes + {b}, model[b.key := b.val])
    ensures |model[b.key := b.val]| == |model| + 1
    ensures forall c | c in nodes :: c.key != b.key
  {
  }

  lemma HoldsRemove<K, V>(nodes: set<Bucket<K, V>>, model: map<K, V>, b: Bucket<K, V>)
    requires Holds(nodes, model) && b in nodes && forall c | c in nodes && c.key == b.key :: c == b
    ensures Holds(nodes - {b}, model - {b.key})
    ensures |model - {b.key}| + 1 == |model|
  {
  }

  /** The value of one key has been replaced in its bucket. */
  lemma HoldsUpdate<K, V>(nodes: set<Bucket<K, V>>, model: map<K, V>, key: K, val: V)
    requires key in model
    requires forall b | b in nodes :: b.key in model && b.val == if b.key == key then val else model[b.key]
    requires KeysCovered(nodes, model)
    ensures Holds(nodes, model[key := val])
    ensures |model[key := val]| == |model|
  {
  }

  lemma {:induction false} ShlSixteen(k: nat)
    requires k >= 4
    ensures Shl(1, k) >= 16 && Shl(1, k) % 4 == 0
  {
    if k > 4 {
      ShlSixteen(k - 1);
    } else {
      assert Shl(1, 2) == 4;
    }
  }

  class Table<K(==), V> {
    const hashOf: K -> nat
    var table: array<Bucket?<K, V>>
    var capacity: nat
    var length: nat

    /** The chains behind `table`, their buckets, and the map they represent. */
    ghost var chains: seq<seq<Bucket<K, V>>>
    ghost var nodes: set<Bucket<K, V>>
    ghost var model: map<K, V>
    /** `length` is two to the power `log`; `moves` counts buckets moved by all expansions so far. */
    ghost var log: nat
    ghost var moves: nat

    ghost predicate Shape()
      reads `table, `length, `chains, `nodes, `log, table, nodes`next
    {
      length == Shl(1, log) && log >= 4 && Core(table, chains, nodes, length, hashOf)
    }

    ghost predicate Represents()
      reads `model, `nodes, nodes`val
    {
      Holds(nodes, model)
    }

    ghost predicate Counts()
      reads `capacity, `chains, `model, `length, `moves
    {
      capacity == Total(chains) == |model| && 4 * capacity <= 3 * length && 4 * moves == 3 * (length - 16)
    }

    ghost predicate Valid()
      reads this, table, nodes
    {
      Shape() && Represents() && Counts()
    }

    constructor (hashOf: K -> nat)
      ensures Valid() && fresh(table) && nodes == {}
      ensures model == map[] && length == 16 && moves == 0 && this.hashOf == hashOf
    {
      this.hashOf := hashOf;
      this.capacity := 0;
      this.length := 16;
      this.table := new Bucket?<K, V>[16](_ => null);
      this.chains := seq(16, _ => []);
      this.nodes := {};
      this.model := map[];
      this.log := 4;
      this.moves := 0;
      new;
      TotalEmpty(chains);
      assert Shl(1, 4) == 16 by { assert Shl(1, 2) == 4; }
    }

    ghost predicate HasKey(chain: seq<Bucket<K, V>>, key: K) {
      exists j :: 0 <= j < |chain| && chain[j].key == key
    }

    lemma OneBucketPerKey(b: Bucket<K, V>, c: Bucket<K, V>)
      requires Shape() && b in nodes && c in nodes && b.key == c.key
      ensures b == c
    {
      SameKey(chains, length, hashOf, b, c, Place(length, b.hash), Place(length, c.hash));
    }

    /** A key is present exactly when its chain has it. */
    lemma KeyInChain(key: K)
      requires Shape() && Represents()
      ensures Place(length, hashOf(key)) < length == |chains| == table.Length
      ensures var chain := chains[Place(length, hashOf(key))];
        && Linked(table[Place(length, hashOf(key))], chain)
        && (HasKey(chain, key) <==> key in model)
        && (forall b | b in chain :: b in nodes && b.hash == hashOf(b.key))
        && (forall b | b in chain && b.key == key :: b.val == model[key])
    {
      hide And, Shl;
      PlaceIsRemainder(log, hashOf(key));
      var chain := chains[Place(length, hashOf(key))];
      if HasKey(chain, key) {
        var j :| 0 <= j < |chain| && chain[j].key == key;
        assert chain[j] in chain;
      }
      if key in model {
        var b :| b in nodes && b.key == key;
        assert b in chain;
        var j :| 0 <= j < |chain| && chain[j] == b;
        assert chain[j].key == key;
      }
    }

    lemma KeyFound(chain: seq<Bucket<K, V>>, key: K)
      ensures HasKey(chain, key) <==> exists j :: 0 <= j < |chain| && chain[j].key == key
    {
    }

    /** The bucket of a key, or null if the key is absent. */
    method GetBucket(hash: nat, key: K) returns (b: Bucket?<K, V>)
      requires Valid() && hash == hashOf(key)
      ensures b == null ==> key !in model
      ensures b != null ==> b in nodes && b.key == key && key in model && b.val == model[key]
    {
      hide Place, Represents, Counts, Placed, Covers;
      KeyInChain(key);
      var index := Place(length, hash);
      ghost var chain := chains[index];
      b := table[index];
      ghost var j := 0;
      while b != null
        invariant 0 <= j <= |chain| && b == At(chain, j)
        invariant forall x | 0 <= x < j :: chain[x].key != key
        decreases |chain| - j
      {
        if b.hash == hash && b.key == key {
          break;
        }
        b := b.next;
        j := j + 1;
      }
    }

    /** getSize */
    method GetSize() returns (n: nat)
      requires Valid()
      ensures n == |model|
    {
      n := capacity;
    }

    /** `fallback` is what the caller's variable holds if the key is absent. */
    method Get(key: K, fallback: V) returns (found: bool, value: V)
      requires Valid()
      ensures found <==> key in model
      ensures value == if key in model then model[key] else fallback
    {
      value := fallback;
      found := false;
      var bucket := GetBucket(hashOf(key), key);
      if bucket != null {
        value := bucket.val;
        found := true;
      }
    }

    method Contains(key: K) returns (result: bool)
      requires Valid()
      ensures result <==> key in model
    {
      var bucket := GetBucket(hashOf(key), key);
      result := bucket != null;
    }

    method Replace(key: K, val: V) returns (found: bool)
      requires Valid()
      modifies this, nodes
      ensures Valid() && table == old(table) && nodes == old(nodes)
      ensures found <==> key in old(model)
      ensures model == if found then old(model)[key := val] else old(model)
      ensures length == old(length) && moves == old(moves)
    {
      hide Valid;
      found := false;
      var bucket := GetBucket(hashOf(key), key);
      if bucket != null {
        SetVal(bucket, val);
        found := true;
      }
    }

    /** Overwriting one bucket's value. */
    method SetVal(bucket: Bucket<K, V>, val: V)
      requires Valid() && bucket in nodes
      modifies this`model, bucket`val
      ensures Valid() && model == old(model)[bucket.key := val]
    {
      hide Shape;
      forall b | b in nodes && b.key == bucket.key ensures b == bucket {
        OneBucketPerKey(b, bucket);
      }
      bucket.val := val;
      HoldsUpdate(nodes, model, bucket.key, val);
      model := model[bucket.key := val];
    }

    /** `steal_bucket`: takes the bucket of a key out of its chain; the caller adjusts `capacity`. */
    method StealBucket(hash: nat, key: K) returns (b: Bucket?<K, V>)
      requires Valid() && hash == hashOf(key)
      modifies `chains, `nodes, `model, table, nodes`next
      ensures b == null <==> key !in old(model)
      ensures b == null ==> Valid() && model == old(model) && nodes == old(nodes)
      ensures b != null ==>
        && Shape() && Represents()
        && b in old(nodes) && b.key == key && b.val == old(model[key])
        && nodes == old(nodes) - {b} && model == old(model) - {key}
        && Total(chains) + 1 == old(Total(chains)) && |model| + 1 == |old(model)|
    {
      hide Place, Core, Represents, Counts, HasKey, Shl, Linked;
      KeyInChain(key);
      KeyFound(chains[Place(length, hash)], key);
      var index := Place(length, hash);
      ghost var chain := chains[index];
      var previous: Bucket?<K, V> := null;
      b := table[index];
      ghost var j := 0;
      LinkedNext(b, chain, 0);
      while b != null
        invariant 0 <= j <= |chain| && b == At(chain, j)
        invariant previous == if j == 0 then null else chain[j - 1]
        invariant forall x | 0 <= x < j :: chain[x].key != key
        decreases |chain| - j
        modifies {}
      {
        if b.hash == hash && b.key == key {
          break;
        }
        LinkedNext(table[index], chain, j);
        previous := b;
        b := b.next;
        j := j + 1;
      }
      if b != null {
        assert chain[j] == b;
        Unlink(index, previous, b, j);
      }
    }

    /** `previous->next = bucket->next`, or the same for the head of the chain. */
    method Unlink(index: nat, previous: Bucket?<K, V>, b: Bucket<K, V>, ghost j: nat)
      requires Shape() && Represents() && index < length == |chains|
      requires j < |chains[index]| && b == chains[index][j]
      requires previous == if j == 0 then null else chains[index][j - 1]
      modifies `chains, `nodes, `model, table, nodes`next
      ensures Shape() && Represents()
      ensures nodes == old(nodes) - {b} && model == old(model) - {b.key}
      ensures Total(chains) + 1 == old(Total(chains))
      ensures |model| + 1 == |old(model)|
    {
      hide Total, Shl, Place, Core, Holds;
      assert b in nodes && forall c | c in nodes && c.key == b.key :: c == b by { UniqueInShape(index, j); }
      HoldsRemove(nodes, model, b);
      label before:
      Bypass(table, chains, nodes, length, hashOf, index, previous, b, j);
      chains := chains[index := Without(chains[index], j)];
      assert old@before(Holds(nodes - {b}, model - {b.key}));
      nodes := nodes - {b};
      model := model - {b.key};
    }

    lemma UniqueInShape(index: nat, j: nat)
      requires Shape() && index < length && j < |chains[index]|
      ensures chains[index][j] in nodes
      ensures forall c | c in nodes && c.key == chains[index][j].key :: c == chains[index][j]
    {
      hide Place;
      var b := chains[index][j];
      assert b in chains[index];
      forall c | c in nodes && c.key == b.key ensures c == b {
        OneBucketPerKey(c, b);
      }
    }

    method Remove(key: K) returns (found: bool)
      requires Valid()
      modifies this, table, nodes
      ensures Valid() && table == old(table) && nodes <= old(nodes)
      ensures found <==> key in old(model)
      ensures model == old(model) - {key}
      ensures length == old(length) && moves == old(moves)
    {
      hide Shape, Represents, Total;
      found := false;
      var bucket := StealBucket(hashOf(key), key);
      if bucket != null {
        capacity := capacity - 1;
        found := true;
      } else {
        assert old(model) - {key} == old(model);
      }
    }

    /** `fallback` is what the caller's variable holds if the key is absent. */
    method Steal(key: K, fallback: V) returns (found: bool, val: V)
      requires Valid()
      modifies this, table, nodes
      ensures Valid() && table == old(table) && nodes <= old(nodes)
      ensures found <==> key in old(model)
      ensures val == if found then old(model)[key] else fallback
      ensures model == old(model) - {key}
      ensures length == old(length) && moves == old(moves)
    {
      hide Shape, Represents, Total;
      found, val := false, fallback;
      var bucket := StealBucket(hashOf(key), key);
      if bucket != null {
        val := bucket.val;
        capacity := capacity - 1;
        found := true;
      } else {
        assert old(model) - {key} == old(model);
      }
    }

    /**
      `add` inserts or overwrites; its result says whether the key was there.  The load
      test is the exact comparison of capacity / length with 3 / 4.
     */
    method Add(key: K, val: V) returns (found: bool)
      requires Valid()
      modifies this, table, nodes
      ensures Valid() && fresh(nodes - old(nodes)) && (table == old(table) || fresh(table))
      ensures found <==> key in old(model)
      ensures model == old(model)[key := val]
      ensures length == if 4 * old(capacity) >= 3 * old(length) then 2 * old(length) else old(length)
      ensures moves == if 4 * old(capacity) >= 3 * old(length) then old(moves) + old(capacity) else old(moves)
    {
      hide Valid;
      ExpandIfFull();
      var hash := hashOf(key);
      found := Overwrite(hash, key, val);
      if !found {
        Insert(hash, key, val);
      }
    }

    method ExpandIfFull()
      requires Valid()
      modifies this, nodes
      ensures Valid() && nodes == old(nodes) && (table == old(table) || fresh(table))
      ensures model == old(model) && capacity == old(capacity) && 4 * capacity < 3 * length
      ensures length == if 4 * old(capacity) >= 3 * old(length) then 2 * old(length) else old(length)
      ensures moves == if 4 * old(capacity) >= 3 * old(length) then old(moves) + old(capacity) else old(moves)
    {
      hide Shape, Represents, Total;
      assert length > 0 by { Positive(); }
      if 4 * capacity >= 3 * length {
        ExpandMap();
      }
    }

    lemma InRange(hash: nat)
      requires Shape()
      ensures length > 0 && Place(length, hash) < length == |chains| == table.Length
    {
      hide Place, Shl;
      PlaceIsRemainder(log, hash);
    }

    lemma Positive()
      requires Shape()
      ensures length >= 16 && length % 4 == 0
    {
      hide Core;
      assert Shl(1, 4) == 16 by { assert Shl(1, 2) == 4; }
      ShlSixteen(log);
    }

    /** The search loop of `add`, which goes on after it has found the key. */
    method SearchAndSet(hash: nat, key: K, val: V) returns (found: bool)
      requires Shape() && Represents() && hash == hashOf(key)
      modifies nodes`val
      ensures found <==> key in model
      ensures forall c | c in nodes :: c.val == if found && c.key == key then val else old(c.val)
    {
      hide Place, Shape, Represents, HasKey, Linked;
      KeyInChain(key);
      KeyFound(chains[Place(length, hash)], key);
      found := false;
      var index := Place(length, hash);
      ghost var chain := chains[index];
      var b := table[index];
      ghost var j, at := 0, 0;
      LinkedNext(b, chain, 0);
      while b != null
        invariant 0 <= j <= |chain| && b == At(chain, j)
        invariant Linked(table[index], chain)
        invariant if found then at < j && chain[at].key == key else forall x | 0 <= x < j :: chain[x].key != key
        invariant forall c | c in nodes :: c.val == if found && c.key == key then val else old(c.val)
        decreases |chain| - j
        modifies nodes`val
      {
        if b.hash == hash && b.key == key {
          forall c | c in nodes && c.key == key ensures c == b {
            OneBucketPerKey(c, b);
          }
          b.val := val;
          found := true;
          at := j;
        }
        LinkedNext(table[index], chain, j);
        b := b.next;
        j := j + 1;
      }
    }

    method Overwrite(hash: nat, key: K, val: V) returns (found: bool)
      requires Valid() && hash == hashOf(key)
      modifies `model, nodes`val
      ensures Valid()
      ensures found <==> key in old(model)
      ensures model == if found then old(model)[key := val] else old(model)
    {
      hide Shape, Total, KeysCovered;
      found := SearchAndSet(hash, key, val);
      if found {
        HoldsUpdate(nodes, model, key, val);
        model := model[key := val];
      }
    }

    /** The insertion of `add` in front of the chain. */
    method Insert(hash: nat, key: K, val: V)
      requires Valid() && hash == hashOf(key) && key !in model && 4 * capacity < 3 * length
      modifies `capacity, `chains, `nodes, `model, table
      ensures Valid() && fresh(nodes - old(nodes)) && nodes >= old(nodes)
      ensures model == old(model)[key := val]
    {
      hide Place, Core, Holds, Total, Shl;
      InRange(hash);
      Positive();
      var index := Place(length, hash);
      var bucket := new Bucket(hash, key, val, table[index]);
      HoldsInsert(nodes, model, bucket);
      PushFront(table, chains, nodes, length, hashOf, bucket, index);
      chains := chains[index := [bucket] + chains[index]];
      nodes := nodes + {bucket};
      model := model[key := val];
      capacity := capacity + 1;
    }

    /** `done` are the buckets of the first `i` chains. */
    ghost predicate UpTo(done: set<Bucket<K, V>>, i: nat)
      requires length > 0
      reads `nodes, `length
    {
      done == set b | b in nodes && Place(length, b.hash) < i
    }

    /** The old chains, whatever has become of their links. */
    ghost predicate OldChains()
      reads `chains, `nodes, `length
    {
      length > 0 && Placed(chains, length, hashOf) && Covers(nodes, chains, length)
    }

    /** A bucket whose turn has come has a key none of the moved buckets has. */
    lemma NotYetMoved(done: set<Bucket<K, V>>, i: nat, j: nat)
      requires OldChains() && i < length && UpTo(done, i) && j < |chains[i]|
      ensures forall c | c in done || c in chains[i][..j] :: c.key != chains[i][j].key
      ensures chains[i][j] in nodes && chains[i][j].hash == hashOf(chains[i][j].key)
    {
    }

    /** The inner loop of `expand_map`: moves the buckets of one old chain. */
    method MoveChain(newData: array<Bucket?<K, V>>, ghost newChains: seq<seq<Bucket<K, V>>>,
                     ghost done: set<Bucket<K, V>>,
                     newLen: nat, ghost newLog: nat, i: nat)
      returns (ghost chains': seq<seq<Bucket<K, V>>>, ghost done': set<Bucket<K, V>>)
      requires OldChains() && table.Length == length && i < length && newData != table && newLen == Shl(1, newLog)
      requires Core(newData, newChains, done, newLen, hashOf) && UpTo(done, i)
      requires forall x | i <= x < length :: Linked(table[x], chains[x])
      modifies `moves, newData, nodes`next
      ensures moves == old(moves) + |chains[i]|
      ensures Core(newData, chains', done', newLen, hashOf) && UpTo(done', i + 1)
      ensures forall x | i < x < length :: Linked(table[x], chains[x])
      ensures Total(chains') == Total(newChains) + |chains[i]|
    {
      hide Place, Shl, Total, Core, OldChains, UpTo, Linked;
      chains', done' := newChains, done;
      ghost var chain := ChainFacts(i);
      var b := table[i];
      ghost var j := 0;
      while b != null
        invariant 0 <= j <= |chain| && b == At(chain, j)
        invariant Core(newData, chains', done', newLen, hashOf)
        invariant forall c :: c in done' <==> c in done || c in chain[..j]
        invariant forall x | j <= x < |chain| :: chain[x].next == At(chain, x + 1)
        invariant forall x | i < x < length :: Linked(table[x], chains[x])
        invariant Total(chains') == Total(newChains) + j
        invariant moves == old(moves) + j
        decreases |chain| - j
        modifies `moves, newData, nodes`next
      {
        NotYetMoved(done, i, j);
        PlaceIsRemainder(newLog, b.hash);
        var place := Place(newLen, b.hash);
        var next := b.next;
        label before:
        PushFront(newData, chains', done', newLen, hashOf, b, place);
        chains', done' := chains'[place := [b] + chains'[place]], done' + {b};
        forall x | i < x < length ensures Linked(table[x], chains[x]) {
          assert old@before(Linked(table[x], chains[x]));
          assert b in chain && b !in chains[x];
        }
        moves := moves + 1;
        b := next;
        j := j + 1;
      }
      MovedUpTo(done, done', i);
    }

    lemma ChainFacts(i: nat) returns (chain: seq<Bucket<K, V>>)
      requires OldChains() && i < length == table.Length && Linked(table[i], chains[i])
      ensures |chains| == length && chain == chains[i] && KeysDiffer(chain)
      ensures table[i] == At(chain, 0) && forall x | 0 <= x < |chain| :: chain[x].next == At(chain, x + 1)
      ensures forall b | b in chain :: b in nodes
      ensures forall x, b | 0 <= x < length && x != i && b in chain :: b !in chains[x]
    {
      chain := chains[i];
      OneChain(chains, length, hashOf, i);
    }

    lemma MovedUpTo(done: set<Bucket<K, V>>, done': set<Bucket<K, V>>, i: nat)
      requires OldChains() && i < length && UpTo(done, i)
      requires forall c :: c in done' <==> c in done || c in chains[i]
      ensures UpTo(done', i + 1)
    {
    }

    /** `expand_map`: every bucket moves once, into an array twice as long. */
    method ExpandMap()
      requires Valid() && 4 * capacity == 3 * length
      modifies `table, `length, `chains, `log, `moves, nodes`next
      ensures Valid() && nodes == old(nodes) && fresh(table)
      ensures length == 2 * old(length) && moves == old(moves) + capacity
      ensures forall b | b in nodes :: LandsNear(old(length), b.hash)
    {
      hide Place, Shl, Total, Represents, OldChains, UpTo, Core, Linked, LandsNear;
      var newLen := 2 * length;
      var newData := new Bucket?<K, V>[newLen](_ => null);
      ghost var newChains: seq<seq<Bucket<K, V>>> := seq(newLen, _ => []);
      ghost var done: set<Bucket<K, V>> := {};
      StartMoving(newData, newChains, newLen);
      var i := 0;
      while i < length
        invariant 0 <= i <= length
        invariant Core(newData, newChains, done, newLen, hashOf) && UpTo(done, i)
        invariant forall x | i <= x < length :: Linked(table[x], chains[x])
        invariant Total(newChains) == Total(chains[..i])
        invariant moves == old(moves) + Total(chains[..i])
        modifies `moves, newData, nodes`next
      {
        TotalStep(chains, i);
        newChains, done := MoveChain(newData, newChains, done, newLen, log + 1, i);
        i := i + 1;
      }
      assert chains[..i] == chains;
      assert done == nodes by { AllMoved(done); }
      forall b | b in nodes ensures LandsNear(length, b.hash) {
        PlaceDoubles(log, b.hash);
      }
      table := newData;
      length := newLen;
      chains := newChains;
      log := log + 1;
    }

    lemma StartMoving(newData: array<Bucket?<K, V>>, newChains: seq<seq<Bucket<K, V>>>, newLen: nat)
      requires Shape() && newLen == 2 * length && newData.Length == newLen == |newChains|
      requires forall i | 0 <= i < newLen :: newData[i] == null && newChains[i] == []
      ensures Core(newData, newChains, {}, newLen, hashOf) && Total(newChains) == 0
      ensures OldChains() && UpTo({}, 0) && Total(chains[..0]) == 0
      ensures newLen == Shl(1, log + 1) && |chains| == table.Length == length > 0
      ensures forall i | 0 <= i < length :: Linked(table[i], chains[i])
    {
      TotalEmpty(newChains);
    }

    lemma AllMoved(done: set<Bucket<K, V>>)
      requires OldChains() && UpTo(done, length)
      ensures done == nodes
    {
    }

    /** The destructor's inner loop: deletes the buckets of one chain, counting down. */
    method FreeChain(freed: seq<Bucket<K, V>>, left: nat, i: nat) returns (freed': seq<Bucket<K, V>>, left': nat)
      requires i < length == |chains| == table.Length && Linked(table[i], chains[i]) && |chains[i]| <= left
      ensures freed' == freed + chains[i] && left' == left - |chains[i]|
    {
      freed', left' := freed, left;
      ghost var chain := chains[i];
      ghost var j := 0;
      var b := table[i];
      while b != null
        invariant 0 <= j <= |chain| && b == At(chain, j)
        invariant freed' == freed + chain[..j] && left' == left - j
        decreases |chain| - j
      {
        var next := b.next;
        freed' := freed' + [b];
        b := next;
        left' := left' - 1;
        j := j + 1;
      }
    }

    /** The destructor deletes every bucket once, though it stops as soon as none is left. */
    method Destroy() returns (freed: seq<Bucket<K, V>>)
      requires Valid()
      ensures forall b :: b in freed <==> b in nodes
      ensures forall x, y | 0 <= x < y < |freed| :: freed[x] != freed[y]
      ensures |freed| == capacity
    {
      hide Place, Shl, Total, Flatten, Represents, Placed, Covers, Linked;
      freed := [];
      var left := capacity;
      var i := 0;
      PlacesInRange(chains, nodes, length, hashOf);
      assert Flatten(chains[..0]) == [] by { FlattenNothing(chains[..0]); }
      while i < length && left > 0
        invariant 0 <= i <= length == |chains|
        invariant freed == Flatten(chains[..i]) && |freed| + left == Total(chains)
      {
        FlattenStep(chains, i);
        FlattenSplit(chains, i + 1);
        FlattenSize(chains);
        freed, left := FreeChain(freed, left, i);
        i := i + 1;
      }
      FlattenSplit(chains, i);
      FlattenSize(chains);
      FlattenNothing(chains[i..]);
      assert freed == Flatten(chains);
      assert chains[..length] == chains;
      FlattenPlaced(chains, nodes, length, hashOf, length);
    }
  }
}
