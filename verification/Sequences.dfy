/**
 Concatenating blocks of rows, and keeping the rows whose key is in a set.
 */
module Sequences {

  function Flatten<T>(blocks: seq<seq<T>>): seq<T> {
    if blocks == [] then [] else
    var n := |blocks| - 1;
    Flatten(blocks[..n]) + blocks[n]
  }

  lemma FlattenAppend<T>(blocks: seq<seq<T>>, block: seq<T>)
    ensures Flatten(blocks + [block]) == Flatten(blocks) + block
  {
    assert (blocks + [block])[..|blocks|] == blocks;
  }

  function Keep<T>(rows: seq<T>, key: T -> nat, keys: set<nat>): seq<T> {
    if rows == [] then [] else
    var n := |rows| - 1;
    Keep(rows[..n], key, keys) + if key(rows[n]) in keys then [rows[n]] else []
  }

  lemma {:induction false} KeepConcat<T>(a: seq<T>, b: seq<T>, key: T -> nat, keys: set<nat>)
    ensures Keep(a + b, key, keys) == Keep(a, key, keys) + Keep(b, key, keys)
  {
    if b == [] {
      assert a + b == a;
    } else {
      var n := |b| - 1;
      KeepConcat(a, b[..n], key, keys);
      assert (a + b)[..|a| + n] == a + b[..n];
    }
  }

  // Every row of block i carries owner i.
  ghost predicate Owned<T>(blocks: seq<seq<T>>, owners: seq<nat>, key: T -> nat) {
    |blocks| == |owners| && forall i :: 0 <= i < |blocks| ==> Carries(blocks[i], key, owners[i])
  }

  ghost predicate Carries<T>(block: seq<T>, key: T -> nat, owner: nat) {
    forall j :: 0 <= j < |block| ==> key(block[j]) == owner
  }

  // The blocks whose owner is in `keys`.
  function Select<T>(blocks: seq<seq<T>>, owners: seq<nat>, keys: set<nat>): seq<seq<T>>
    requires |blocks| == |owners|
  {
    if blocks == [] then [] else
    var n := |blocks| - 1;
    Select(blocks[..n], owners[..n], keys) + if owners[n] in keys then [blocks[n]] else []
  }

  lemma {:induction false} KeepBlock<T>(block: seq<T>, key: T -> nat, owner: nat, keys: set<nat>)
    requires Carries(block, key, owner)
    ensures Keep(block, key, keys) == if owner in keys then block else []
  {
    if block != [] {
      var n := |block| - 1;
      KeepBlock(block[..n], key, owner, keys);
      assert block == block[..n] + [block[n]];
    }
  }

  // Keeping rows of concatenated owned blocks keeps whole blocks.
  lemma {:induction false} KeepFlatten<T>(blocks: seq<seq<T>>, owners: seq<nat>, key: T -> nat, keys: set<nat>)
    requires Owned(blocks, owners, key)
    ensures Keep(Flatten(blocks), key, keys) == Flatten(Select(blocks, owners, keys))
  {
    if blocks != [] {
      var n := |blocks| - 1;
      KeepFlatten(blocks[..n], owners[..n], key, keys);
      KeepConcat(Flatten(blocks[..n]), blocks[n], key, keys);
      KeepBlock(blocks[n], key, owners[n], keys);
      var kept := Select(blocks[..n], owners[..n], keys);
      if owners[n] in keys {
        FlattenAppend(kept, blocks[n]);
      } else {
        assert kept + [] == kept;
      }
    }
  }

  ghost predicate Uniform<T>(blocks: seq<seq<T>>, size: nat) {
    forall i :: 0 <= i < |blocks| ==> |blocks[i]| == size
  }

  lemma {:induction false} UniformLength<T>(blocks: seq<seq<T>>, size: nat)
    requires Uniform(blocks, size)
    ensures |Flatten(blocks)| == |blocks| * size
  {
    if blocks != [] {
      UniformLength(blocks[..|blocks| - 1], size);
      assert |blocks| * size == (|blocks| - 1) * size + size;
    }
  }

  // Row `at` of the concatenation of blocks of one size is in block at / size.
  lemma {:induction false} UniformIndex<T>(blocks: seq<seq<T>>, size: nat, block: nat, offset: nat)
    requires Uniform(blocks, size) && block < |blocks| && offset < size
    ensures |Flatten(blocks)| == |blocks| * size && block * size + offset < |blocks| * size
    ensures Flatten(blocks)[block * size + offset] == blocks[block][offset]
  {
    var n := |blocks| - 1;
    UniformLength(blocks, size);
    UniformLength(blocks[..n], size);
    assert |blocks| * size == n * size + size;
    if block < n {
      UniformIndex(blocks[..n], size, block, offset);
    }
  }

  lemma {:induction false} SelectConcat<T>(a: seq<seq<T>>, oa: seq<nat>, b: seq<seq<T>>, ob: seq<nat>, keys: set<nat>)
    requires |a| == |oa| && |b| == |ob|
    ensures Select(a + b, oa + ob, keys) == Select(a, oa, keys) + Select(b, ob, keys)
  {
    if b == [] {
      assert a + b == a && oa + ob == oa;
    } else {
      var n := |b| - 1;
      SelectConcat(a, oa, b[..n], ob[..n], keys);
      assert (a + b)[..|a| + n] == a + b[..n] && (oa + ob)[..|a| + n] == oa + ob[..n];
    }
  }

  lemma {:induction false} SelectAll<T>(blocks: seq<seq<T>>, owners: seq<nat>, keys: set<nat>)
    requires |blocks| == |owners| && forall i :: 0 <= i < |owners| ==> owners[i] in keys
    ensures Select(blocks, owners, keys) == blocks
  {
    if blocks != [] {
      var n := |blocks| - 1;
      SelectAll(blocks[..n], owners[..n], keys);
      assert blocks == blocks[..n] + [blocks[n]];
    }
  }

  lemma {:induction false} SelectUniform<T>(blocks: seq<seq<T>>, owners: seq<nat>, keys: set<nat>, size: nat)
    requires |blocks| == |owners| && Uniform(blocks, size)
    ensures Uniform(Select(blocks, owners, keys), size)
  {
    if blocks != [] {
      SelectUniform(blocks[..|blocks| - 1], owners[..|blocks| - 1], keys, size);
    }
  }

  // With distinct owners, one block is selected per key that owns one.
  lemma {:induction false} SelectCount<T>(blocks: seq<seq<T>>, owners: seq<nat>, keys: set<nat>)
    requires |blocks| == |owners|
    requires forall i, j :: 0 <= i < j < |owners| ==> owners[i] != owners[j]
    requires forall k :: k in keys ==> k in owners
    ensures |Select(blocks, owners, keys)| == |keys|
  {
    if blocks != [] {
      var n := |blocks| - 1;
      var rest := keys - {owners[n]};
      forall k | k in rest ensures k in owners[..n] {
        assert k in owners && k != owners[n];
      }
      SelectCount(blocks[..n], owners[..n], rest);
      SelectSame(blocks[..n], owners[..n], rest, keys);
      assert owners[n] in keys ==> keys == rest + {owners[n]};
    } else {
      assert keys == {};
    }
  }

  lemma {:induction false} SelectSame<T>(blocks: seq<seq<T>>, owners: seq<nat>, keys: set<nat>, keys': set<nat>)
    requires |blocks| == |owners|
    requires forall i :: 0 <= i < |owners| ==> (owners[i] in keys <==> owners[i] in keys')
    ensures Select(blocks, owners, keys) == Select(blocks, owners, keys')
  {
    if blocks != [] {
      SelectSame(blocks[..|blocks| - 1], owners[..|blocks| - 1], keys, keys');
    }
  }

  // How many rows of owned blocks of one size have a key in `keys`.
  lemma KeepCount<T>(blocks: seq<seq<T>>, owners: seq<nat>, key: T -> nat, keys: set<nat>, size: nat)
    requires Owned(blocks, owners, key) && Uniform(blocks, size)
    requires forall i, j :: 0 <= i < j < |owners| ==> owners[i] != owners[j]
    requires forall k :: k in keys ==> k in owners
    ensures |Keep(Flatten(blocks), key, keys)| == |keys| * size
  {
    KeepFlatten(blocks, owners, key, keys);
    SelectUniform(blocks, owners, keys, size);
    UniformLength(Select(blocks, owners, keys), size);
    SelectCount(blocks, owners, keys);
  }

  // Keeping twice is keeping once when the second condition implies the first.
  lemma {:induction false} KeepKeep<T>(rows: seq<T>, key: T -> nat, keys: set<nat>, key2: T -> nat, keys2: set<nat>)
    requires forall i :: 0 <= i < |rows| && key2(rows[i]) in keys2 ==> key(rows[i]) in keys
    ensures Keep(Keep(rows, key, keys), key2, keys2) == Keep(rows, key2, keys2)
  {
    if rows != [] {
      var n := |rows| - 1;
      KeepKeep(rows[..n], key, keys, key2, keys2);
      var kept := Keep(rows[..n], key, keys);
      if key(rows[n]) in keys {
        assert Keep(rows, key, keys)[..|kept|] == kept;
      } else {
        assert Keep(rows, key, keys) == kept;
      }
    }
  }

  // Where a key is found.
  function KeyedAt<T>(rows: seq<T>, key: T -> nat, k: nat): set<nat> {
    set i: nat | i < |rows| && key(rows[i]) == k
  }

  lemma {:induction false} KeyedCount<T>(rows: seq<T>, key: T -> nat, k: nat)
    ensures |Keep(rows, key, {k})| == |KeyedAt(rows, key, k)|
  {
    if rows != [] {
      var n := |rows| - 1;
      KeyedCount(rows[..n], key, k);
      assert KeyedAt(rows, key, k) == KeyedAt(rows[..n], key, k) + if key(rows[n]) == k then {n} else {};
    }
  }

  // A key found at one place only.
  lemma {:induction false} KeepOnly<T>(rows: seq<T>, key: T -> nat, k: nat, at: nat)
    requires at < |rows| && forall i :: 0 <= i < |rows| ==> (key(rows[i]) == k <==> i == at)
    ensures Keep(rows, key, {k}) == [rows[at]]
  {
    var n := |rows| - 1;
    if at < n {
      KeepOnly(rows[..n], key, k, at);
    } else {
      KeepNone(rows[..n], key, k);
    }
  }

  lemma {:induction false} KeepNone<T>(rows: seq<T>, key: T -> nat, k: nat)
    requires forall i :: 0 <= i < |rows| ==> key(rows[i]) != k
    ensures Keep(rows, key, {k}) == []
  {
    if rows != [] { KeepNone(rows[..|rows| - 1], key, k); }
  }
}
