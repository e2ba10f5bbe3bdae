/** The cache's hash table: an array of chains, doubled as it fills. It is a map from keys to handles. */
module HandleTable {
  import opened DbFormat

  type Key = string

  datatype Node = Node(key: Key, id: nat)

  type Chains = seq<seq<Node>>

  predicate PowerOfTwo(n: nat) { n == 1 || (n > 1 && n % 2 == 0 && PowerOfTwo(n / 2)) }

  /** Every node is in the chain of its hash and maps its key; no chain holds a key twice. */
  predicate ChainOk(hash: Key -> nat, list: Chains, contents: map<Key, nat>, b: nat)
    requires b < |list|
  {
    && (forall i | 0 <= i < |list[b]| :: hash(list[b][i].key) % |list| == b && In(contents, list[b][i]))
    && (forall i, j | 0 <= i < j < |list[b]| :: list[b][i].key != list[b][j].key)
  }

  predicate In(contents: map<Key, nat>, n: Node) { n.key in contents && contents[n.key] == n.id }

  predicate Chained(hash: Key -> nat, list: Chains, k: Key, id: nat)
    requires list != []
  {
    Node(k, id) in list[hash(k) % |list|]
  }

  /** The chains hold exactly `contents`. */
  ghost predicate Holds(hash: Key -> nat, list: Chains, contents: map<Key, nat>) {
    && list != []
    && (forall b | 0 <= b < |list| :: ChainOk(hash, list, contents, b))
    && (forall k | k in contents :: Chained(hash, list, k, contents[k]))
  }

  lemma {:induction false} SetNode(hash: Key -> nat, list: Chains, contents: map<Key, nat>, b: nat, i: nat, n: Node)
    requires Holds(hash, list, contents) && b < |list| && b == hash(n.key) % |list| && i < |list[b]|
             && list[b][i].key == n.key
    ensures Holds(hash, list[b := list[b][i := n]], contents[n.key := n.id])
  {
    var l, m := list[b := list[b][i := n]], contents[n.key := n.id];
    assert ChainOk(hash, list, contents, b);
    forall c | 0 <= c < |l| ensures ChainOk(hash, l, m, c) {
      assert ChainOk(hash, list, contents, c);
    }
    forall k | k in m ensures Chained(hash, l, k, m[k]) {
      if k == n.key {
        assert l[b][i] == n;
      } else {
        assert Chained(hash, list, k, contents[k]);
        var j :| 0 <= j < |list[hash(k) % |list|]| && list[hash(k) % |list|][j] == Node(k, contents[k]);
        assert l[hash(k) % |list|][j] == Node(k, contents[k]);
      }
    }
  }

  lemma {:induction false} AddNode(hash: Key -> nat, list: Chains, contents: map<Key, nat>, b: nat, chain: seq<Node>,
                                   n: Node)
    requires Holds(hash, list, contents) && b < |list| && b == hash(n.key) % |list| && n.key !in contents
    requires chain == list[b] + [n] || chain == [n] + list[b]
    ensures Holds(hash, list[b := chain], contents[n.key := n.id])
  {
    var l, m := list[b := chain], contents[n.key := n.id];
    assert ChainOk(hash, list, contents, b);
    forall c | 0 <= c < |l| ensures ChainOk(hash, l, m, c) {
      assert ChainOk(hash, list, contents, c);
    }
    forall k | k in m ensures Chained(hash, l, k, m[k]) {
      if k == n.key {
        assert n in chain;
      } else {
        assert Chained(hash, list, k, contents[k]);
      }
    }
  }

  lemma {:induction false} DropNode(hash: Key -> nat, list: Chains, contents: map<Key, nat>, b: nat, i: nat)
    requires Holds(hash, list, contents) && b < |list| && i < |list[b]|
    ensures Holds(hash, list[b := list[b][..i] + list[b][i + 1..]], contents - {list[b][i].key})
  {
    var chain := list[b][..i] + list[b][i + 1..];
    var l, m := list[b := chain], contents - {list[b][i].key};
    assert ChainOk(hash, list, contents, b);
    assert forall j | 0 <= j < |chain| :: chain[j] == list[b][if j < i then j else j + 1];
    forall c | 0 <= c < |l| ensures ChainOk(hash, l, m, c) {
      assert ChainOk(hash, list, contents, c);
    }
    forall k | k in m ensures Chained(hash, l, k, m[k]) {
      assert Chained(hash, list, k, contents[k]);
      if hash(k) % |list| == b {
        var j :| 0 <= j < |list[b]| && list[b][j] == Node(k, contents[k]);
        assert chain[if j < i then j else j - 1] == Node(k, contents[k]);
      }
    }
  }

  class Table {
    const hash: Key -> nat
    var list: Chains
    var elems: nat
    ghost var contents: map<Key, nat>

    ghost predicate Valid()
      reads this
    {
      PowerOfTwo(|list|) && Holds(hash, list, contents) && elems == |contents| && elems <= |list|
    }

    constructor (hash: Key -> nat)
      ensures Valid() && contents == map[] && this.hash == hash
    {
      this.hash, list, elems, contents := hash, [[], [], [], []], 0, map[];
      assert PowerOfTwo(4);
    }

    /** The chain of the key, and the position of the key in it or else the end of the chain. */
    method FindPointer(key: Key) returns (b: nat, i: nat)
      requires Holds(hash, list, contents)
      ensures b < |list| && b == hash(key) % |list| && i <= |list[b]|
      ensures i < |list[b]| ==> list[b][i].key == key && key in contents && contents[key] == list[b][i].id
      ensures i == |list[b]| ==> key !in contents
    {
      b, i := hash(key) % |list|, 0;
      assert ChainOk(hash, list, contents, b);
      while i < |list[b]| && list[b][i].key != key
        invariant i <= |list[b]| && forall j | 0 <= j < i :: list[b][j].key != key
      {
        i := i + 1;
      }
      if i < |list[b]| {
        assert In(contents, list[b][i]);
      }
      assert key in contents ==> Chained(hash, list, key, contents[key]);
    }

    method Lookup(key: Key) returns (r: Option<nat>)
      requires Valid()
      ensures r == if key in contents then Some(contents[key]) else None
    {
      var b, i := FindPointer(key);
      r := if i < |list[b]| then Some(list[b][i].id) else None;
    }

    method Insert(n: Node) returns (r: Option<nat>)
      requires Valid()
      modifies this
      ensures Valid() && contents == old(contents)[n.key := n.id]
      ensures r == if n.key in old(contents) then Some(old(contents)[n.key]) else None
    {
      var b, i := FindPointer(n.key);
      contents := contents[n.key := n.id];
      if i < |list[b]| {
        SetNode(hash, list, old(contents), b, i, n);
        r := Some(list[b][i].id);
        list := list[b := list[b][i := n]];
      } else {
        AddNode(hash, list, old(contents), b, list[b] + [n], n);
        r := None;
        list, elems := list[b := list[b] + [n]], elems + 1;
        if elems > |list| {
          Resize();
        }
      }
    }

    method Remove(key: Key) returns (r: Option<nat>)
      requires Valid()
      modifies this
      ensures Valid() && contents == old(contents) - {key}
      ensures r == if key in old(contents) then Some(old(contents)[key]) else None
    {
      var b, i := FindPointer(key);
      if i < |list[b]| {
        DropNode(hash, list, contents, b, i);
        r := Some(list[b][i].id);
        contents := contents - {key};
        list, elems := list[b := list[b][..i] + list[b][i + 1..]], elems - 1;
      } else {
        r := None;
      }
    }

    method Resize()
      requires PowerOfTwo(|list|) && Holds(hash, list, contents) && elems == |contents|
      modifies `list
      ensures Valid()
    {
      var length := 4;
      assert PowerOfTwo(4);
      while length < elems
        invariant length >= 4 && PowerOfTwo(length)
      {
        length := length * 2;
      }
      var longer := MoveAll(length);
      list := longer;
    }

    /** The rehashing loop: the nodes of every chain, pushed one by one on the chains of a longer table. */
    method MoveAll(length: nat) returns (r: Chains)
      requires Holds(hash, list, contents) && length >= 1
      ensures |r| == length && Holds(hash, r, contents)
    {
      r := seq(length, _ => []);
      ghost var moved: map<Key, nat> := map[];
      for b := 0 to |list|
        invariant |r| == length && Holds(hash, r, moved)
        invariant forall k | k in moved :: k in contents && moved[k] == contents[k] && hash(k) % |list| < b
        invariant forall k | k in contents && hash(k) % |list| < b :: k in moved
      {
        r, moved := MoveChain(b, r, moved);
      }
      assert moved == contents;
    }

    method MoveChain(b: nat, r0: Chains, ghost moved0: map<Key, nat>) returns (r: Chains, ghost moved: map<Key, nat>)
      requires Holds(hash, list, contents) && b < |list| && Holds(hash, r0, moved0)
      requires forall k | k in moved0 :: k in contents && moved0[k] == contents[k] && hash(k) % |list| < b
      requires forall k | k in contents && hash(k) % |list| < b :: k in moved0
      ensures |r| == |r0| && Holds(hash, r, moved)
      ensures forall k | k in moved :: k in contents && moved[k] == contents[k] && hash(k) % |list| <= b
      ensures forall k | k in contents && hash(k) % |list| <= b :: k in moved
    {
      r, moved := r0, moved0;
      assert ChainOk(hash, list, contents, b);
      for i := 0 to |list[b]|
        invariant |r| == |r0| && Holds(hash, r, moved)
        invariant forall k | k in moved :: k in contents && moved[k] == contents[k]
        invariant forall k | k in moved :: k in moved0 || exists j | 0 <= j < i :: list[b][j].key == k
        invariant forall k | k in moved0 :: k in moved
        invariant forall j | 0 <= j < i :: list[b][j].key in moved
      {
        var n := list[b][i];
        var c := hash(n.key) % |r|;
        assert In(contents, n);
        AddNode(hash, r, moved, c, [n] + r[c], n);
        r := r[c := [n] + r[c]];
        moved := moved[n.key := n.id];
      }
      forall k | k in contents && hash(k) % |list| == b ensures k in moved {
        assert Chained(hash, list, k, contents[k]);
      }
    }
  }
}
