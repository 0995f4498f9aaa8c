/**
 The iterator that readline drives to collect completions.  With no text to
 complete it walks over the whole table and lets a word through only in the bucket
 whose key is as long as the word, so that every added word comes out as often as
 it was added although it is stored under all its prefixes.
 */
module CompletionGenerator {
  import opened Sequences
  import opened Wrappers
  import opened CompletionHash
  import opened CompletionIndex
  import opened CompletionWords

  // ----- what the walk lets through ------------------------------------------------------------------

  function OfLength(words: seq<Word>, n: nat): seq<Word> {
    if words == [] then [] else (if |words[0]| == n then [words[0]] else []) + OfLength(words[1..], n)
  }

  /** What a table with these contents keeps in the bucket. */
  ghost function WordsIn(m: Contents, b: Bucket): seq<Word> {
    if b.Key() in m then m[b.Key()].words else []
  }

  ghost function FromBuckets(m: Contents, bs: seq<Bucket>): seq<Word> {
    if bs == [] then [] else OfLength(WordsIn(m, bs[0]), bs[0].keyLength) + FromBuckets(m, bs[1..])
  }

  ghost function FromChains(m: Contents, chains: seq<seq<Bucket>>, k: nat): seq<Word>
    decreases |chains| - k
  {
    if k >= |chains| then [] else FromBuckets(m, chains[k]) + FromChains(m, chains, k + 1)
  }

  // ----- every word as often as it was added -----------------------------------------------------------

  lemma {:induction false} OfLengthCount(words: seq<Word>, n: nat, w: Word)
    ensures multiset(OfLength(words, n))[w] == if |w| == n then multiset(words)[w] else 0
  {
    if words != [] {
      OfLengthCount(words[1..], n, w);
      assert words == [words[0]] + words[1..];
    }
  }

  /** The bucket belongs to a key of the table. */
  ghost predicate Keyed(m: Contents, b: Bucket) {
    0 < b.keyLength <= |b.key| && b.Key() in m
  }

  lemma BucketCount(m: Contents, added: seq<Word>, b: Bucket, w: Word)
    requires Indexes(m, added) && Keyed(m, b)
    ensures multiset(OfLength(WordsIn(m, b), b.keyLength))[w] == if w == b.Key() then multiset(added)[w] else 0
  {
    OfLengthCount(WordsIn(m, b), b.keyLength, w);
    assert IndexedAt(m, added, b.Key());
    MatchesExactly(added, b.Key(), w);
    assert |w| == b.keyLength && b.Key() <= w <==> w == b.Key();
  }

  ghost predicate HasKey(bs: seq<Bucket>, w: Word) {
    exists b | b in bs :: b.Key() == w
  }

  lemma HasKeyFirst(bs: seq<Bucket>, w: Word)
    requires bs != [] && KeysDistinct(bs)
    ensures HasKey(bs, w) <==> bs[0].Key() == w || HasKey(bs[1..], w)
    ensures bs[0].Key() == w ==> !HasKey(bs[1..], w)
  {
    assert bs == [bs[0]] + bs[1..];
    if bs[0].Key() == w {
      forall b | b in bs[1..] ensures b.Key() != w {
        var k :| 0 <= k < |bs[1..]| && bs[1..][k] == b;
        assert bs[0].Key() != bs[k + 1].Key();
      }
    }
  }

  lemma {:induction false} BucketsCount(m: Contents, added: seq<Word>, bs: seq<Bucket>, w: Word)
    requires Indexes(m, added) && ChainKeyed(m, bs)
    ensures multiset(FromBuckets(m, bs))[w] == if HasKey(bs, w) then multiset(added)[w] else 0
  {
    if bs != [] {
      assert bs[0] in bs;
      BucketCount(m, added, bs[0], w);
      assert ChainKeyed(m, bs[1..]);
      BucketsCount(m, added, bs[1..], w);
      HasKeyFirst(bs, w);
      var here, later := OfLength(WordsIn(m, bs[0]), bs[0].keyLength), FromBuckets(m, bs[1..]);
      assert multiset(here + later)[w] == multiset(here)[w] + multiset(later)[w];
    }
  }

  ghost predicate KeysDistinct(bs: seq<Bucket>) {
    forall j, k | 0 <= j < k < |bs| :: bs[j].Key() != bs[k].Key()
  }

  /** A key occurs only in the chain it is at home in. */
  ghost predicate AtHome(chains: seq<seq<Bucket>>, home: Word -> nat) {
    forall i, w | 0 <= i < |chains| && HasKey(chains[i], w) :: i == home(w)
  }

  ghost predicate ChainKeyed(m: Contents, bs: seq<Bucket>) {
    KeysDistinct(bs) && forall b | b in bs :: Keyed(m, b)
  }

  lemma {:induction false} ChainsCount(m: Contents, added: seq<Word>, chains: seq<seq<Bucket>>, home: Word -> nat, from: nat, w: Word)
    requires Indexes(m, added) && from <= |chains| && AtHome(chains, home)
    requires forall i | 0 <= i < |chains| :: ChainKeyed(m, chains[i])
    ensures multiset(FromChains(m, chains, from))[w] ==
            if from <= home(w) < |chains| && HasKey(chains[home(w)], w) then multiset(added)[w] else 0
    decreases |chains| - from
  {
    if from < |chains| {
      var here, later := FromBuckets(m, chains[from]), FromChains(m, chains, from + 1);
      ChainsCount(m, added, chains, home, from + 1, w);
      assert multiset(here)[w] == if from == home(w) && HasKey(chains[home(w)], w) then multiset(added)[w] else 0 by {
        assert ChainKeyed(m, chains[from]);
        BucketsCount(m, added, chains[from], w);
      }
      assert multiset(here + later)[w] == multiset(here)[w] + multiset(later)[w];
    }
  }

  lemma KeysAtHome(index: Word -> nat, heads: seq<Bucket?>, chains: seq<seq<Bucket>>, dir: map<Word, Bucket>)
    requires Shape(index, heads, chains, dir)
    ensures AtHome(chains, index)
    ensures forall w | w in dir :: HasKey(chains[index(w)], w)
  {
    forall i, w | 0 <= i < |chains| && HasKey(chains[i], w) ensures i == index(w) {
      var b: Bucket :| b in chains[i] && b.Key() == w;
      assert Belongs(index, i, b);
    }
  }

  lemma KeysDistinctInChain(index: Word -> nat, heads: seq<Bucket?>, chains: seq<seq<Bucket>>, dir: map<Word, Bucket>, i: nat)
    requires Shape(index, heads, chains, dir) && i < |chains|
    ensures KeysDistinct(chains[i]) && forall b | b in chains[i] :: 0 < b.keyLength <= |b.key| && b.Key() in dir
  {
    var bs := chains[i];
    assert Distinct(bs);
    forall j, k | 0 <= j < k < |bs| ensures bs[j].Key() != bs[k].Key() {
      assert bs[j] in chains[i] && bs[k] in chains[i];
      assert dir[bs[j].Key()] == bs[j] && dir[bs[k].Key()] == bs[k] && bs[j] != bs[k];
    }
    forall b | b in bs ensures 0 < b.keyLength <= |b.key| && b.Key() in dir {
      assert Belongs(index, i, b);
    }
  }

  /** The walk lets every added word through exactly as often as it was added, and never the empty one. */
  lemma WalkIsComplete(ht: HashTable, added: seq<Word>)
    requires ht.Valid() && Indexes(ht.Contents(), added)
    ensures multiset(FromChains(ht.Contents(), ht.chains, 0)) == multiset(added)[[] := 0]
  {
    var m, chains := ht.Contents(), ht.chains;
    assert m.Keys == ht.dir.Keys;
    ShapeCounts(ht.nIndex, ht.arBuckets[..], chains, ht.dir, m, added);
  }

  lemma ShapeCounts(index: Word -> nat, heads: seq<Bucket?>, chains: seq<seq<Bucket>>, dir: map<Word, Bucket>,
                    m: Contents, added: seq<Word>)
    requires Shape(index, heads, chains, dir) && m.Keys == dir.Keys
    requires Indexes(m, added)
    ensures multiset(FromChains(m, chains, 0)) == multiset(added)[[] := 0]
  {
    KeysAtHome(index, heads, chains, dir);
    forall i | 0 <= i < |chains| ensures ChainKeyed(m, chains[i]) {
      KeysDistinctInChain(index, heads, chains, dir, i);
    }
    forall w: Word ensures multiset(FromChains(m, chains, 0))[w] == multiset(added)[[] := 0][w] {
      ChainsCount(m, added, chains, index, 0, w);
      if w == [] {
        assert index(w) < |chains| ==> ChainKeyed(m, chains[index(w)]);
      } else if w in added {
        AddedHasKey(m, added, w);
      }
      assert w in added <==> w in multiset(added);
    }
  }

  lemma AddedHasKey(m: Contents, added: seq<Word>, w: Word)
    requires Indexes(m, added) && w != [] && w in added
    ensures w in m
  {
    assert IndexedAt(m, added, w);
    MatchIn(added, w, w);
  }

  // ----- the iterator ----------------------------------------------------------------------------------

  /** What a walk along a chain relies on. */
  ghost predicate Walkable(m: Contents, head: Bucket?, chain: seq<Bucket>, repr: set<object>)
    reads repr
  {
    && Linked(head, chain)
    && forall b: Bucket | b in chain :: b in repr && b.data.Entry? && WordsIn(m, b) == ToSeq(b.data)
  }

  ghost predicate AllWalkable(m: Contents, ht: HashTable)
    reads ht, ht.Repr
  {
    && ht.arBuckets in ht.Repr && ht.arBuckets.Length == |ht.chains|
    && forall i | 0 <= i < |ht.chains| :: Walkable(m, ht.arBuckets[i], ht.chains[i], ht.Repr)
  }

  lemma ValidWalkable(ht: HashTable)
    requires ht.Valid()
    ensures AllWalkable(ht.Contents(), ht)
  {
    var m := ht.Contents();
    forall i | 0 <= i < |ht.chains| ensures Walkable(m, ht.arBuckets[i], ht.chains[i], ht.Repr) {
      assert Linked(ht.arBuckets[..][i], ht.chains[i]);
      forall b: Bucket | b in ht.chains[i] ensures b in ht.Repr && b.data.Entry? && WordsIn(m, b) == ToSeq(b.data) {
        assert ht.dir[b.Key()] == b;
      }
    }
  }

  lemma HeadOfChain(m: Contents, ht: HashTable, i: nat)
    requires AllWalkable(m, ht) && i < ht.arBuckets.Length
    ensures ht.arBuckets[i] == if ht.chains[i] == [] then null else ht.chains[i][0]
  {
    assert Walkable(m, ht.arBuckets[i], ht.chains[i], ht.Repr);
  }

  /** Some chain from here on is in use. */
  ghost predicate UsedFrom(ht: HashTable, from: nat)
    reads ht, ht.arBuckets
  {
    exists j | from <= j < ht.arBuckets.Length :: ht.arBuckets[j] != null
  }

  /** As long as a word is in the table, some chain is in use. */
  lemma AddedIsUsed(ht: HashTable, added: seq<Word>, w: Word)
    requires ht.Valid() && Indexes(ht.Contents(), added) && w in added && w != []
    ensures UsedFrom(ht, 0)
  {
    var m := ht.Contents();
    AddedHasKey(m, added, w);
    KeysAtHome(ht.nIndex, ht.arBuckets[..], ht.chains, ht.dir);
    ValidWalkable(ht);
    var i := ht.nIndex(w);
    assert HasKey(ht.chains[i], w);
    HeadOfChain(m, ht, i);
    assert ht.arBuckets[i] != null;
  }

  lemma {:induction false} SkipUnused(m: Contents, ht: HashTable, from: nat, used: nat)
    requires AllWalkable(m, ht) && from <= used
    requires forall j | from <= j < used && j < ht.arBuckets.Length :: ht.arBuckets[j] == null
    ensures FromChains(m, ht.chains, from) == FromChains(m, ht.chains, used)
    decreases used - from
  {
    if from < used {
      if from < ht.arBuckets.Length { HeadOfChain(m, ht, from); }
      SkipUnused(m, ht, from + 1, used);
    }
  }

  lemma NextInChain(m: Contents, ht: HashTable, i: nat, at: nat)
    requires AllWalkable(m, ht) && i < |ht.chains| && at < |ht.chains[i]|
    ensures ht.chains[i][at].next == if at + 1 < |ht.chains[i]| then ht.chains[i][at + 1] else null
  {
    assert Walkable(m, ht.arBuckets[i], ht.chains[i], ht.Repr);
  }

  lemma EntriesOf(m: Contents, ht: HashTable, i: nat, at: nat)
    requires AllWalkable(m, ht) && i < |ht.chains| && at < |ht.chains[i]|
    ensures var b := ht.chains[i][at]; b in ht.Repr && b.data.Entry? && WordsIn(m, b) == ToSeq(b.data)
  {
    assert Walkable(m, ht.arBuckets[i], ht.chains[i], ht.Repr);
  }

  /** What is left to let through with the cursor on `e` in the bucket `at` of chain `i`. */
  ghost function Rest(m: Contents, chains: seq<seq<Bucket>>, i: nat, at: nat, e: Entries): seq<Word>
    requires i < |chains| && at < |chains[i]|
  {
    OfLength(ToSeq(e), chains[i][at].keyLength) + Beyond(m, chains, i, at + 1)
  }

  ghost function Beyond(m: Contents, chains: seq<seq<Bucket>>, i: nat, at: nat): seq<Word>
    requires i < |chains| && at <= |chains[i]|
  {
    FromBuckets(m, chains[i][at..]) + FromChains(m, chains, i + 1)
  }

  function Emitted(ptr: Option<Word>): seq<Word> {
    if ptr.Some? then [ptr.value] else []
  }

  lemma RestStep(m: Contents, chains: seq<seq<Bucket>>, i: nat, at: nat, e: Entries, ptr: Option<Word>)
    requires i < |chains| && at < |chains[i]| && e.Entry?
    requires ptr == if |e.str| == chains[i][at].keyLength then Some(e.str) else None
    ensures Rest(m, chains, i, at, e) == Emitted(ptr) + Rest(m, chains, i, at, e.next)
  {
    assert ToSeq(e)[1..] == ToSeq(e.next);
    var later, beyond := OfLength(ToSeq(e.next), chains[i][at].keyLength), Beyond(m, chains, i, at + 1);
    assert Emitted(ptr) + later + beyond == Emitted(ptr) + (later + beyond);
  }

  lemma RestOver(m: Contents, chains: seq<seq<Bucket>>, i: nat, at: nat)
    requires i < |chains| && at < |chains[i]|
    ensures Rest(m, chains, i, at, Nil) == Beyond(m, chains, i, at + 1)
  {
  }

  lemma ChainOver(m: Contents, chains: seq<seq<Bucket>>, i: nat)
    requires i < |chains|
    ensures Beyond(m, chains, i, |chains[i]|) == FromChains(m, chains, i + 1)
  {
  }

  lemma ChainBegins(m: Contents, chains: seq<seq<Bucket>>, i: nat)
    requires i < |chains|
    ensures Beyond(m, chains, i, 0) == FromChains(m, chains, i)
  {
    assert chains[i][0..] == chains[i];
  }

  lemma BucketBegins(m: Contents, chains: seq<seq<Bucket>>, i: nat, at: nat, e: Entries)
    requires i < |chains| && at < |chains[i]| && WordsIn(m, chains[i][at]) == ToSeq(e)
    ensures Rest(m, chains, i, at, e) == Beyond(m, chains, i, at)
  {
    var own, rest, later := OfLength(ToSeq(e), chains[i][at].keyLength), FromBuckets(m, chains[i][at + 1..]), FromChains(m, chains, i + 1);
    assert FromBuckets(m, chains[i][at..]) == own + rest by {
      assert chains[i][at..][1..] == chains[i][at + 1..];
    }
    assert own + (rest + later) == own + rest + later;
  }

  class Generator {
    const ht: HashTable
    var textlen: nat
    var b: Bucket?
    var e: Entries
    var i: nat
    ghost var at: nat

    constructor (ht: HashTable)
      ensures this.ht == ht && e == Nil
    {
      this.ht := ht;
      textlen, b, e, i, at := 0, null, Nil, 0, 0;
    }

    ghost predicate InBucket()
      reads this, ht
    {
      i < |ht.chains| && at < |ht.chains[i]| && b == ht.chains[i][at]
    }

    /** A walk stands on an entry of the bucket `at` in chain `i`, or is over. */
    ghost predicate OnEntry()
      reads this, ht
    {
      textlen == 0 && e.Entry? ==> InBucket()
    }

    /** The words that the coming calls return. */
    ghost function Pending(m: Contents): seq<Word>
      requires OnEntry()
      reads this, ht
    {
      if textlen > 0 then ToSeq(e) else if e.Nil? then [] else Rest(m, ht.chains, i, at, e)
    }

    /** The first entry of a bucket. */
    method EnterBucket(ghost m: Contents)
      requires textlen == 0 && InBucket() && b.data.Entry? && WordsIn(m, b) == ToSeq(b.data)
      modifies this`e
      ensures e.Entry? && Pending(m) == Beyond(m, ht.chains, i, at)
    {
      e := b.data;
      BucketBegins(m, ht.chains, i, at, e);
    }

    /** The index of the next used chain. */
    method NextUsed(from: nat) returns (k: nat)
      ensures from <= k && (from <= ht.arBuckets.Length ==> k <= ht.arBuckets.Length)
      ensures forall j | from <= j < k && j < ht.arBuckets.Length :: ht.arBuckets[j] == null
      ensures k < ht.arBuckets.Length ==> ht.arBuckets[k] != null
    {
      k := from;
      while k < ht.arBuckets.Length
        invariant from <= k && (from <= ht.arBuckets.Length ==> k <= ht.arBuckets.Length)
        invariant forall j | from <= j < k && j < ht.arBuckets.Length :: ht.arBuckets[j] == null
      {
        if ht.arBuckets[k] != null {
          return;
        }
        k := k + 1;
      }
    }

    /** The first entry of the next used chain, from `i` on; an entry left over is replaced if there is one. */
    method NextChain(ghost m: Contents)
      requires AllWalkable(m, ht) && this !in ht.Repr && textlen == 0 && (e.Nil? || UsedFrom(ht, i))
      modifies this
      ensures textlen == 0 && i >= old(i) && OnEntry()
      ensures Pending(m) == FromChains(m, ht.chains, old(i))
    {
      var k := NextUsed(i);
      SkipUnused(m, ht, i, k);
      i := k;
      if k < ht.arBuckets.Length {
        HeadOfChain(m, ht, k);
        EntriesOf(m, ht, k, 0);
        ChainBegins(m, ht.chains, k);
        b, at := ht.arBuckets[k], 0;
        EnterBucket(m);
      }
    }

    method LeaveChain(ghost m: Contents)
      requires AllWalkable(m, ht) && this !in ht.Repr && textlen == 0 && e.Nil? && i < |ht.chains|
      modifies this
      ensures textlen == 0 && OnEntry() && i > old(i)
      ensures Pending(m) == Beyond(m, ht.chains, old(i), |ht.chains[old(i)]|)
    {
      ChainOver(m, ht.chains, i);
      b, i := null, i + 1;
      NextChain(m);
    }

    method FollowChain(ghost m: Contents)
      requires textlen == 0 && InBucket() && at + 1 < |ht.chains[i]| && b.next == ht.chains[i][at + 1]
      requires b.next.data.Entry? && WordsIn(m, b.next) == ToSeq(b.next.data)
      modifies this
      ensures textlen == 0 && OnEntry() && i == old(i) && at == old(at) + 1
      ensures Pending(m) == Beyond(m, ht.chains, i, at)
    {
      b, at := b.next, at + 1;
      EnterBucket(m);
    }

    /** The next bucket of the chain, or else the next used chain. */
    method NextBucket(ghost m: Contents)
      requires AllWalkable(m, ht) && this !in ht.Repr && textlen == 0 && e.Nil? && InBucket()
      modifies this
      ensures textlen == 0 && OnEntry() && (i > old(i) || (i == old(i) && at > old(at)))
      ensures Pending(m) == Beyond(m, ht.chains, old(i), old(at) + 1)
    {
      NextInChain(m, ht, i, at);
      if b.next == null {
        LeaveChain(m);
      } else {
        EntriesOf(m, ht, i, at + 1);
        FollowChain(m);
      }
    }

    /** One turn of a walk: the entry under the cursor comes out if its length is that of the key. */
    method Turn(ghost m: Contents) returns (ptr: Option<Word>)
      requires AllWalkable(m, ht) && this !in ht.Repr && textlen == 0 && e.Entry? && InBucket()
      modifies this
      ensures textlen == 0 && OnEntry()
      ensures i > old(i) || (i == old(i) && (at > old(at) || (at == old(at) && e < old(e))))
      ensures old(Pending(m)) == Emitted(ptr) + Pending(m)
    {
      hide Rest, AllWalkable, Beyond;
      ptr := if |e.str| == b.keyLength then Some(e.str) else None;
      RestStep(m, ht.chains, i, at, e, ptr);
      RestOver(m, ht.chains, i, at);
      e := e.next;
      if e.Nil? {
        NextBucket(m);
      }
    }

    /** Goes on to the next entry that comes out. */
    method Walk(ghost m: Contents) returns (ptr: Option<Word>)
      requires AllWalkable(m, ht) && this !in ht.Repr && textlen == 0 && OnEntry()
      modifies this
      ensures textlen == 0 && OnEntry()
      ensures old(Pending(m)) == Emitted(ptr) + Pending(m)
      ensures ptr.None? ==> e.Nil?
    {
      ptr := None;
      while e.Entry? && ptr.None?
        invariant textlen == 0 && OnEntry()
        invariant old(Pending(m)) == Emitted(ptr) + Pending(m)
        decreases |ht.chains| - i, if i < |ht.chains| then |ht.chains[i]| - at else 0, e
      {
        ptr := Turn(m);
      }
    }

    /** What a completion of the text returns in all. */
    ghost function Wanted(text: Word, m: Contents, added: seq<Word>): seq<Word>
      reads ht
    {
      if text == [] then FromChains(m, ht.chains, 0) else Matches(added, text)
    }

    method StartWalk(ghost m: Contents)
      requires AllWalkable(m, ht) && this !in ht.Repr && (e.Nil? || UsedFrom(ht, 0))
      modifies this
      ensures OnEntry() && Pending(m) == FromChains(m, ht.chains, 0)
    {
      textlen := 0;
      i := 0;
      NextChain(m);
    }

    method StartMatches(text: Word, ghost m: Contents, ghost added: seq<Word>) returns (found: bool)
      requires ht.Valid() && Indexes(ht.Contents(), added) && this !in ht.Repr && text != []
      modifies this
      ensures OnEntry() && (if found then Pending(m) == Matches(added, text) else Matches(added, text) == [])
    {
      textlen := |text|;
      b := FindAllMatches(ht, text, added);
      found := b != null;
      if found {
        e := b.data;
      }
    }

    /** The first part of a first call; with a text that nothing starts with the call is over. */
    method Start(text: Word, ghost m: Contents, ghost added: seq<Word>) returns (found: bool)
      requires ht.Valid() && Indexes(ht.Contents(), added) && AllWalkable(m, ht) && this !in ht.Repr
      requires e.Nil? || text != [] || UsedFrom(ht, 0)
      modifies this
      ensures OnEntry()
      ensures if found then Pending(m) == Wanted(text, m, added) else Wanted(text, m, added) == []
    {
      if |text| > 0 {
        found := StartMatches(text, m, added);
      } else {
        StartWalk(m);
        found := true;
      }
    }

    /** The rest of every call. */
    method Resume(ghost m: Contents) returns (ptr: Option<Word>)
      requires AllWalkable(m, ht) && this !in ht.Repr && OnEntry()
      modifies this
      ensures OnEntry() && old(Pending(m)) == Emitted(ptr) + Pending(m)
      ensures ptr.None? ==> e.Nil?
    {
      if textlen == 0 {
        ptr := Walk(m);
      } else if e.Entry? {
        ptr := Some(e.str);
        e := e.next;
      } else {
        ptr := None;
      }
    }

    /** `new_command_generator`; a walk that was abandoned does not matter unless the table has been emptied since. */
    method Generate(text: Word, state: nat, ghost m: Contents, ghost added: seq<Word>) returns (ptr: Option<Word>)
      requires AllWalkable(m, ht) && this !in ht.Repr
      requires state == 0 ==> ht.Valid() && Indexes(ht.Contents(), added) && (e.Nil? || text != [] || UsedFrom(ht, 0))
      requires state != 0 ==> OnEntry()
      modifies this
      ensures OnEntry()
      ensures state == 0 ==> if ptr.None? then Wanted(text, m, added) == [] else Wanted(text, m, added) == [ptr.value] + Pending(m)
      ensures state != 0 ==> if ptr.None? then old(Pending(m)) == [] else old(Pending(m)) == [ptr.value] + Pending(m)
    {
      if state == 0 {
        var found := Start(text, m, added);
        if !found {
          return None;
        }
      }
      ptr := Resume(m);
    }

    /** The calls of one completion, until none is returned. */
    method Drive(text: Word, ghost m: Contents, ghost added: seq<Word>) returns (list: seq<Word>)
      requires ht.Valid() && Indexes(ht.Contents(), added) && AllWalkable(m, ht) && this !in ht.Repr
      requires e.Nil? || text != [] || UsedFrom(ht, 0)
      modifies this
      ensures list == Wanted(text, m, added)
    {
      var ptr := Generate(text, 0, m, added);
      list := Collect(text, ptr, m, added);
    }

    method Collect(text: Word, first: Option<Word>, ghost m: Contents, ghost added: seq<Word>) returns (list: seq<Word>)
      requires AllWalkable(m, ht) && this !in ht.Repr && OnEntry()
      modifies this
      ensures list == if first.None? then [] else [first.value] + old(Pending(m))
    {
      var ptr := first;
      list := [];
      ghost var todo := Coming(first, m);
      while ptr.Some?
        invariant OnEntry() && todo == Coming(ptr, m)
        invariant old(Coming(first, m)) == list + todo
        decreases |todo|
      {
        Assoc(list, [ptr.value], Pending(m));
        list := list + [ptr.value];
        todo := Pending(m);
        ptr := Generate(text, 1, m, added);
      }
    }

    /** The words from this one on. */
    ghost function Coming(ptr: Option<Word>, m: Contents): seq<Word>
      requires OnEntry()
      reads this, ht
    {
      if ptr.None? then [] else [ptr.value] + Pending(m)
    }

    /**
     A text brings the words that start with it, newest first; no text brings all
     words but the empty one, each as often as it was added; also after a walk that
     was abandoned.
     */
    method Completions(text: Word, ghost added: seq<Word>) returns (list: seq<Word>)
      requires ht.Valid() && Indexes(ht.Contents(), added) && this !in ht.Repr
      requires e.Nil? || text != [] || exists w :: w in added && w != []
      modifies this
      ensures text != [] ==> list == Matches(added, text)
      ensures text == [] ==> multiset(list) == multiset(added)[[] := 0]
    {
      ValidWalkable(ht);
      if text == [] {
        WalkIsComplete(ht, added);
        forall w | w in added && w != [] ensures UsedFrom(ht, 0) {
          AddedIsUsed(ht, added, w);
        }
      }
      list := Drive(text, ht.Contents(), added);
    }
  }
}
