/**
 What the completion table means: for every non-empty prefix the words that have
 it, newest first and with repetitions.
 */
module CompletionIndex {
  import opened CompletionHash

  /** The words that start with `p`; both lists are newest first. */
  function Matches(added: seq<Word>, p: Word): seq<Word> {
    if added == [] then []
    else (if p <= added[0] then [added[0]] else []) + Matches(added[1..], p)
  }

  /** The table is the index of the words added. */
  ghost predicate Indexes(m: Contents, added: seq<Word>) {
    forall p: Word :: IndexedAt(m, added, p)
  }

  ghost predicate IndexedAt(m: Contents, added: seq<Word>, p: Word) {
    && (p in m <==> p != [] && Matches(added, p) != [])
    && (p in m ==> m[p].words == Matches(added, p) && m[p].creator == Oldest(Matches(added, p)))
  }

  function Oldest(words: seq<Word>): Word {
    if words == [] then [] else words[|words| - 1]
  }

  // ----- what Matches selects ------------------------------------------------------------------------

  lemma {:induction false} MatchesExactly(added: seq<Word>, p: Word, w: Word)
    ensures multiset(Matches(added, p))[w] == if p <= w then multiset(added)[w] else 0
  {
    if added != [] {
      var first := if p <= added[0] then [added[0]] else [];
      MatchesExactly(added[1..], p, w);
      assert added == [added[0]] + added[1..];
      assert multiset(Matches(added, p)) == multiset(first) + multiset(Matches(added[1..], p));
    }
  }

  lemma MatchIn(added: seq<Word>, p: Word, w: Word)
    ensures w in Matches(added, p) <==> w in added && p <= w
  {
    MatchesExactly(added, p, w);
    assert w in Matches(added, p) <==> w in multiset(Matches(added, p));
    assert w in added <==> w in multiset(added);
  }

  /** A longer prefix selects fewer words, or the same list. */
  lemma {:induction false} MatchesShrink(added: seq<Word>, p: Word, q: Word)
    requires p <= q
    ensures |Matches(added, q)| <= |Matches(added, p)|
    ensures |Matches(added, q)| == |Matches(added, p)| ==> Matches(added, q) == Matches(added, p)
  {
    if added != [] { MatchesShrink(added[1..], p, q); }
  }

  /** If every word selected by `p` also starts with `q`, both select the same list. */
  lemma {:induction false} MatchesSame(added: seq<Word>, p: Word, q: Word)
    requires p <= q && forall w | w in Matches(added, p) :: q <= w
    ensures Matches(added, q) == Matches(added, p)
  {
    if added != [] {
      if p <= added[0] { assert added[0] in Matches(added, p); }
      forall w | w in Matches(added[1..], p) ensures q <= w {
        assert w in Matches(added, p);
      }
      MatchesSame(added[1..], p, q);
    }
  }

  // ----- adding a word ---------------------------------------------------------------------------------

  /** The updates that `add_word` makes for the prefixes of length 1 to `k`. */
  function AddPrefixes(m: Contents, w: Word, k: nat): Contents
    requires k <= |w|
  {
    if k == 0 then m else Updated(AddPrefixes(m, w, k - 1), w[..k], w, w)
  }

  lemma {:induction false} PrefixAdded(m: Contents, w: Word, k: nat, p: Word)
    requires k <= |w|
    ensures var n := AddPrefixes(m, w, k);
            if p <= w && 0 < |p| <= k
            then p in n && n[p] == if p in m then m[p].(words := [w] + m[p].words) else Slot(w, [w])
            else (p in n <==> p in m) && (p in m ==> n[p] == m[p])
    decreases k
  {
    if k > 0 {
      PrefixAdded(m, w, k - 1, p);
      assert p <= w && |p| == k <==> p == w[..k];
    }
  }

  lemma MatchesCons(w: Word, rest: seq<Word>, p: Word)
    ensures Matches([w] + rest, p) == (if p <= w then [w] else []) + Matches(rest, p)
  {
    assert ([w] + rest)[1..] == rest;
  }

  lemma PrefixIndexes(m: Contents, added: seq<Word>, w: Word, p: Word)
    requires Indexes(m, added)
    ensures IndexedAt(AddPrefixes(m, w, |w|), [w] + added, p)
  {
    PrefixAdded(m, w, |w|, p);
    MatchesCons(w, added, p);
    assert IndexedAt(m, added, p);
  }

  /** After `add_word` the table is the index of the longer list. */
  lemma AddWordIndexes(m: Contents, added: seq<Word>, w: Word)
    requires Indexes(m, added)
    ensures Indexes(AddPrefixes(m, w, |w|), [w] + added)
  {
    forall p: Word ensures IndexedAt(AddPrefixes(m, w, |w|), [w] + added, p) {
      PrefixIndexes(m, added, w, p);
    }
  }

  // ----- whole histories -----------------------------------------------------------------------------------

  datatype Op = Add(word: Word) | CleanUp

  function Apply(m: Contents, op: Op): Contents {
    match op
    case Add(w) => AddPrefixes(m, w, |w|)
    case CleanUp => map[]
  }

  function ApplyAll(ops: seq<Op>): Contents {
    if ops == [] then map[] else Apply(ApplyAll(ops[..|ops| - 1]), ops[|ops| - 1])
  }

  /** The words added since the last clean, newest first. */
  function Added(ops: seq<Op>): seq<Word> {
    if ops == [] then []
    else match ops[|ops| - 1]
      case Add(w) => [w] + Added(ops[..|ops| - 1])
      case CleanUp => []
  }

  /** After any sequence of additions and cleans, the table is the index of the words added. */
  lemma {:induction false} HistoryIndexes(ops: seq<Op>)
    ensures Indexes(ApplyAll(ops), Added(ops))
  {
    if ops != [] {
      HistoryIndexes(ops[..|ops| - 1]);
      match ops[|ops| - 1]
      case Add(w) => AddWordIndexes(ApplyAll(ops[..|ops| - 1]), Added(ops[..|ops| - 1]), w);
      case CleanUp => assert forall p: Word :: IndexedAt(map[], [], p);
    } else {
      assert forall p: Word :: IndexedAt(map[], [], p);
    }
  }

  // ----- completion_hash_exists ----------------------------------------------------------------------------

  /** What `completion_hash_exists` answers. */
  predicate Exists(m: Contents, w: Word) {
    w in m && m[w].creator == w
  }

  /**
   It never claims a word that was not added; and it finds an added word if and
   only if that word was the first to be added among all that start with it.
   */
  lemma ExistsIff(m: Contents, added: seq<Word>, w: Word)
    requires Indexes(m, added)
    ensures Exists(m, w) ==> w in added
    ensures Exists(m, w) <==> w != [] && Matches(added, w) != [] && Oldest(Matches(added, w)) == w
  {
    var ws := Matches(added, w);
    assert IndexedAt(m, added, w);
    if Exists(m, w) {
      assert w == ws[|ws| - 1] && w in ws;
      MatchIn(added, w, w);
    }
  }

  /** A word added behind a longer one that starts with it is not found. */
  lemma ShorterWordNotFound(long: Word, short: Word)
    requires short < long && short != []
    ensures var m := ApplyAll([Add(long), Add(short)]);
            short in Added([Add(long), Add(short)]) && !Exists(m, short)
  {
    var ops := [Add(long), Add(short)];
    var one := [Add(long)];
    assert ops[..1] == one && one[..0] == [];
    assert Added(one) == [long] + Added(one[..0]);
    assert Added(ops) == [short] + Added(ops[..1]);
    HistoryIndexes(ops);
    MatchesCons(short, [long], short);
    MatchesCons(long, [], short);
    assert [long] + [] == [long];
    ExistsIff(ApplyAll(ops), Added(ops), short);
  }

  // ----- the longest common prefix ---------------------------------------------------------------------------

  ghost predicate IsCommonPrefix(p: Word, words: seq<Word>) {
    forall w | w in words :: p <= w
  }

  ghost predicate IsLongestCommonPrefix(p: Word, words: seq<Word>) {
    IsCommonPrefix(p, words) && forall q | IsCommonPrefix(q, words) :: |q| <= |p|
  }

  /** A prefix of one of the words cannot be lengthened once the next letter loses a word. */
  lemma PrefixStops(added: seq<Word>, words: seq<Word>, s: Word, k: nat)
    requires k <= |s| && words == Matches(added, s[..k]) && s in words
    requires k == |s| || |Matches(added, s[..k + 1])| < |words|
    ensures IsLongestCommonPrefix(s[..k], words)
  {
    forall w | w in words ensures s[..k] <= w { MatchIn(added, s[..k], w); }
    forall q | IsCommonPrefix(q, words) ensures |q| <= k {
      assert q <= s;
      if |q| > k {
        forall w | w in words ensures s[..k + 1] <= w { assert q <= w; }
        MatchesSame(added, s[..k], s[..k + 1]);
        assert false;
      }
    }
  }
}
