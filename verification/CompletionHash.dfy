/**
 The hash table behind tab completion: an array of bucket chains, every bucket
 with the list of words that were entered under its key.

 Keys and words are byte strings without NUL.  A bucket keeps the whole word it
 was created for and uses a prefix of it as its key.
 */
module CompletionHash {
  import opened Bytes

  type Word = seq<byte>

  /** The entries of a bucket; a cell never changes once it is linked in. */
  datatype Entries = Nil | Entry(str: Word, next: Entries)

  function ToSeq(e: Entries): seq<Word> {
    match e
    case Nil => []
    case Entry(str, next) => [str] + ToSeq(next)
  }

  // ----- the hash function -----------------------------------------------------------------------

  /** A plain `char`, sign-extended. */
  function SignExtend(c: byte): bv32 {
    (if c < 128 then c else c + 0xFFFFFF00) as bv32
  }

  function Mix(h: bv32, c: bv32): bv32 {
    var s := (h << 4) + c;
    var g := s & 0xF0000000;
    if g != 0 then (s ^ (g >> 24)) ^ g else s
  }

  /** `hashpjw` */
  function Hash(key: Word): bv32 {
    if key == [] then 0 else Mix(Hash(key[..|key| - 1]), SignExtend(key[|key| - 1]))
  }

  /** The top four bits are always folded back: shifting in the next byte never loses one. */
  lemma HashBelow28Bits(key: Word)
    ensures Hash(key) & 0xF0000000 == 0
  {
  }

  /** Two letters, and the bytes around the first that is negative as a `char`. */
  lemma HashExamples()
    ensures Hash([97, 98]) == 1650 && Hash([127]) == 127 && Hash([128]) == 0x0FFFFF70
  {
    assert [97, 98][..1] == [97] && [97][..0] == [] && [127][..0] == [] && [128][..0] == [];
    assert Hash([97]) == Mix(0, 97) == 97;
    assert Hash([97, 98]) == Mix(97, 98);
    assert Hash([127]) == Mix(0, 127);
    assert Hash([128]) == Mix(0, 0xFFFFFF80);
  }

  method HashPjw(key: Word) returns (h: bv32)
    ensures h == Hash(key)
  {
    h := 0;
    var i := 0;
    while i < |key|
      invariant 0 <= i <= |key|
      invariant h == Hash(key[..i])
    {
      assert key[..i + 1][..i] == key[..i];
      h := Mix(h, SignExtend(key[i]));
      i := i + 1;
    }
    assert key[..i] == key;
  }

  // ----- the table -----------------------------------------------------------------------------------

  class Bucket {
    const key: Word
    const keyLength: nat
    const h: nat
    const next: Bucket?
    var count: nat
    var data: Entries

    constructor (key: Word, keyLength: nat, h: nat, str: Word, next: Bucket?)
      ensures this.key == key && this.keyLength == keyLength && this.h == h && this.next == next
      ensures count == 1 && data == Entry(str, Nil)
    {
      this.key, this.keyLength, this.h, this.next := key, keyLength, h, next;
      count, data := 1, Entry(str, Nil);
    }

    ghost function Key(): Word {
      if keyLength <= |key| then key[..keyLength] else key
    }
  }

  /** What the table holds under a key: the word the bucket was created for, and the words, newest first. */
  datatype Slot = Slot(creator: Word, words: seq<Word>)

  type Contents = map<Word, Slot>

  function Updated(m: Contents, key: Word, creator: Word, str: Word): Contents {
    if key in m then m[key := m[key].(words := [str] + m[key].words)]
    else m[key := Slot(creator, [str])]
  }

  ghost predicate Linked(head: Bucket?, chain: seq<Bucket>) {
    && head == (if chain == [] then null else chain[0])
    && forall j {:trigger chain[j].next} | 0 <= j < |chain| :: chain[j].next == if j + 1 < |chain| then chain[j + 1] else null
  }

  lemma LinkedCons(p: Bucket, head: Bucket?, chain: seq<Bucket>)
    requires Linked(head, chain) && p.next == head
    ensures Linked(p, [p] + chain)
  {
    var longer := [p] + chain;
    forall j | 0 <= j < |longer|
      ensures longer[j].next == if j + 1 < |longer| then longer[j + 1] else null
    {
      if j > 0 { assert chain[j - 1].next == if j < |chain| then chain[j] else null; }
    }
  }

  /**
   The array leads to the chains; every bucket in a chain belongs there and is the
   one of its key; and every key has its bucket in its chain.
   */
  ghost predicate Shape(index: Word -> nat, heads: seq<Bucket?>, chains: seq<seq<Bucket>>, dir: map<Word, Bucket>) {
    && |heads| == |chains|
    && (forall key :: index(key) < |chains|)
    && (forall i | 0 <= i < |chains| :: Linked(heads[i], chains[i]))
    && (forall i, b | 0 <= i < |chains| && b in chains[i] :: Belongs(index, i, b) && b.Key() in dir && dir[b.Key()] == b)
    && (forall i | 0 <= i < |chains| :: Distinct(chains[i]))
    && (forall key | key in dir :: dir[key].Key() == key && dir[key] in chains[index(key)])
  }

  ghost predicate Distinct(chain: seq<Bucket>) {
    forall j, k | 0 <= j < k < |chain| :: chain[j] != chain[k]
  }

  ghost predicate Hashed(hash: Word -> nat, dir: map<Word, Bucket>) {
    forall key | key in dir :: dir[key].h == hash(key)
  }

  ghost predicate Belongs(index: Word -> nat, i: nat, b: Bucket) {
    0 < b.keyLength <= |b.key| && index(b.Key()) == i
  }

  lemma ShapeAfterAdd(index: Word -> nat, heads: seq<Bucket?>, chains: seq<seq<Bucket>>, dir: map<Word, Bucket>, p: Bucket, i: nat)
    requires Shape(index, heads, chains, dir) && i < |chains|
    requires Belongs(index, i, p) && p.next == heads[i] && p.Key() !in dir
    ensures Shape(index, heads[i := p], chains[i := [p] + chains[i]], dir[p.Key() := p])
  {
    LinkedCons(p, heads[i], chains[i]);
    assert forall k | 0 <= k < |chains| :: p !in chains[k];
    assert Distinct(chains[i]);
    assert Distinct([p] + chains[i]);
  }

  class HashTable {
    const pHashFunction: Word -> nat
    const nIndex: Word -> nat          // the hash value modulo the table size
    const arBuckets: array<Bucket?>
    ghost var chains: seq<seq<Bucket>>
    ghost var dir: map<Word, Bucket>
    ghost var Repr: set<object>

    ghost function Contents(): Contents
      requires Owned()
      reads this, Repr
    {
      map key | key in dir :: Slot(dir[key].key, ToSeq(dir[key].data))
    }

    ghost predicate Owned()
      reads this
    {
      this in Repr && arBuckets in Repr && forall key | key in dir :: dir[key] in Repr
    }

    ghost predicate Counted()
      requires Owned()
      reads this, Repr
    {
      forall key | key in dir :: dir[key].data.Entry? && dir[key].count == |ToSeq(dir[key].data)|
    }

    ghost predicate Valid()
      reads this, Repr
    {
      Owned() && Shape(nIndex, arBuckets[..], chains, dir) && Counted() && Hashed(pHashFunction, dir)
    }

    /** `completion_hash_init` */
    constructor (size: nat, hash: Word -> nat)
      requires size > 0
      ensures pHashFunction == hash && forall key :: nIndex(key) == hash(key) % size
      ensures Valid() && Contents() == map[] && fresh(Repr)
    {
      pHashFunction := hash;
      nIndex := (key: Word) => hash(key) % size;
      arBuckets := new Bucket?[size](i => null);
      chains := seq(size, i => []);
      dir := map[];
      Repr := {this, arBuckets};
    }

    /** The walk along a chain that all the operations share. */
    method Find(key: Word) returns (b: Bucket?)
      requires Valid()
      ensures b == null <==> key !in dir
      ensures b != null ==> b == dir[key]
    {
      var h := pHashFunction(key);
      var n := nIndex(key);
      ghost var chain := chains[n];
      assert Linked(arBuckets[..][n], chain);
      b := arBuckets[n];
      ghost var k := 0;
      while b != null
        invariant 0 <= k <= |chain| && b == (if k < |chain| then chain[k] else null)
        invariant forall j | 0 <= j < k :: chain[j].Key() != key
        decreases |chain| - k
      {
        assert b in chains[n] && Belongs(nIndex, n, b);
        if b.h == h && b.keyLength == |key| {
          if b.key[..b.keyLength] == key {
            return;
          }
        }
        b := b.next;
        k := k + 1;
      }
    }

    /** `completion_hash_update`: false is its failure return. */
    method Update(arKey: Word, nKeyLength: nat, str: Word) returns (ok: bool)
      requires Valid() && nKeyLength <= |arKey|
      modifies Repr
      ensures Valid() && fresh(Repr - old(Repr))
      ensures ok == (nKeyLength > 0)
      ensures Contents() == if ok then Updated(old(Contents()), arKey[..nKeyLength], arKey, str) else old(Contents())
    {
      if nKeyLength == 0 {
        return false;
      }
      Enter(arKey, nKeyLength, str);
      return true;
    }

    method Enter(arKey: Word, nKeyLength: nat, str: Word)
      requires Valid() && 0 < nKeyLength <= |arKey|
      modifies Repr
      ensures Valid() && fresh(Repr - old(Repr))
      ensures Contents() == Updated(old(Contents()), arKey[..nKeyLength], arKey, str)
    {
      hide Shape, Counted, Hashed;
      var p := Find(arKey[..nKeyLength]);
      if p != null {
        PushEntry(arKey[..nKeyLength], arKey, p, str);
      } else {
        AddSlot(arKey, nKeyLength, str);
      }
    }

    method PushEntry(ghost key: Word, ghost creator: Word, p: Bucket, str: Word)
      requires Valid() && key in dir && p == dir[key]
      modifies p
      ensures Valid() && Repr == old(Repr)
      ensures Contents() == Updated(old(Contents()), key, creator, str)
    {
      forall k | k in dir && k != key ensures dir[k] != p {
        assert dir[k].Key() == k;
      }
      hide Shape;
      p.data := Entry(str, p.data);
      p.count := p.count + 1;
    }

    method AddSlot(arKey: Word, nKeyLength: nat, str: Word)
      requires Valid() && 0 < nKeyLength <= |arKey| && arKey[..nKeyLength] !in dir
      modifies this, arBuckets
      ensures Valid() && fresh(Repr - old(Repr))
      ensures Contents() == Updated(old(Contents()), arKey[..nKeyLength], arKey, str)
    {
      var p := AddBucket(arKey, nKeyLength, str);
      ghost var after := old(Contents())[p.Key() := Slot(arKey, [str])];
      assert Contents().Keys == after.Keys;
      forall k | k in dir ensures Contents()[k] == after[k] {
      }
    }

    method AddBucket(arKey: Word, nKeyLength: nat, str: Word) returns (p: Bucket)
      requires Valid() && 0 < nKeyLength <= |arKey| && arKey[..nKeyLength] !in dir
      modifies this, arBuckets
      ensures Valid() && fresh(p) && dir == old(dir)[p.Key() := p] && Repr == old(Repr) + {p}
      ensures p.Key() == arKey[..nKeyLength] && p.key == arKey && ToSeq(p.data) == [str]
    {
      var h := pHashFunction(arKey[..nKeyLength]);
      var n := nIndex(arKey[..nKeyLength]);
      p := new Bucket(arKey, nKeyLength, h, str, arBuckets[n]);
      assert p.Key() == arKey[..nKeyLength] && ToSeq(p.data) == [str];
      LinkIn(p, n);
    }

    method LinkIn(p: Bucket, n: nat)
      requires Valid() && n < arBuckets.Length && p.next == arBuckets[n]
      requires Belongs(nIndex, n, p) && p.Key() !in dir && p.h == pHashFunction(p.Key())
      requires p.data.Entry? && p.count == |ToSeq(p.data)|
      modifies this, arBuckets
      ensures Valid() && dir == old(dir)[p.Key() := p] && Repr == old(Repr) + {p}
    {
      ShapeAfterAdd(nIndex, arBuckets[..], chains, dir, p, n);
      ghost var heads := arBuckets[..];
      arBuckets[n] := p;
      assert arBuckets[..] == heads[n := p];
      chains := chains[n := [p] + chains[n]];
      dir := dir[p.Key() := p];
      Repr := Repr + {p};
    }

    /** `completion_hash_exists`: compares the whole word a bucket was created for, not just its key. */
    method Exists(word: Word) returns (r: bool)
      requires Valid()
      ensures r <==> word in Contents() && Contents()[word].creator == word
    {
      assert word[..|word|] == word;
      var h := pHashFunction(word);
      var n := nIndex(word);
      ghost var chain := chains[n];
      assert Linked(arBuckets[..][n], chain);
      var b := arBuckets[n];
      ghost var k := 0;
      while b != null
        invariant 0 <= k <= |chain| && b == (if k < |chain| then chain[k] else null)
        invariant forall j | 0 <= j < k :: !(chain[j].keyLength == |word| && chain[j].key == word)
        decreases |chain| - k
      {
        assert b in chains[n] && (b.keyLength == |word| && b.key == word ==> b.Key() == word);
        if b.h == h && b.keyLength == |word| {
          if b.key == word {
            return true;
          }
        }
        b := b.next;
        k := k + 1;
      }
      return false;
    }

    /** `completion_hash_clean` */
    method Clean()
      requires Valid()
      modifies this, arBuckets
      ensures Valid() && Contents() == map[] && Repr == old(Repr)
    {
      forall i | 0 <= i < arBuckets.Length {
        arBuckets[i] := null;
      }
      chains := seq(|chains|, i => []);
      dir := map[];
    }
  }
}
