/** `add_word` and `find_longest_match`, working on the bucket chains. */
module CompletionWords {
  import opened CompletionHash
  import opened CompletionIndex

  ghost predicate HasPrefixes(ht: HashTable, before: Contents, word: Word, k: nat)
    requires k <= |word|
    reads ht, ht.Repr
  {
    ht.Valid() && ht.Contents() == AddPrefixes(before, word, k)
  }

  /** `add_word`: the word is entered under each of its prefixes. */
  method AddWord(ht: HashTable, word: Word)
    requires ht.Valid()
    modifies ht.Repr
    ensures ht.Valid() && fresh(ht.Repr - old(ht.Repr))
    ensures ht.Contents() == AddPrefixes(old(ht.Contents()), word, |word|)
  {
    AddPrefixesOf(ht, word, ht.Contents());
  }

  method AddPrefixesOf(ht: HashTable, word: Word, ghost before: Contents)
    requires HasPrefixes(ht, before, word, 0)
    modifies ht.Repr
    ensures HasPrefixes(ht, before, word, |word|) && fresh(ht.Repr - old(ht.Repr))
  {
    hide HasPrefixes;
    var i := 0;
    while i < |word|
      invariant 0 <= i <= |word| && fresh(ht.Repr - old(ht.Repr)) && HasPrefixes(ht, before, word, i)
    {
      AddPrefix(ht, word, i, before);
      i := i + 1;
    }
  }

  method AddPrefix(ht: HashTable, word: Word, i: nat, ghost before: Contents)
    requires i < |word| && HasPrefixes(ht, before, word, i)
    modifies ht.Repr
    ensures HasPrefixes(ht, before, word, i + 1) && fresh(ht.Repr - old(ht.Repr))
  {
    var _ := ht.Update(word, i + 1, word);
  }

  /** `find_all_matches`: the bucket of a prefix holds exactly the words that have it. */
  method FindAllMatches(ht: HashTable, str: Word, ghost added: seq<Word>) returns (b: Bucket?)
    requires ht.Valid() && Indexes(ht.Contents(), added)
    ensures b == null <==> str == [] || Matches(added, str) == []
    ensures b != null ==> b in ht.Repr && b.Key() == str
                          && ToSeq(b.data) == Matches(added, str) && b.count == |Matches(added, str)|
  {
    b := ht.Find(str);
    assert IndexedAt(ht.Contents(), added, str);
    if b != null {
      assert ht.Contents()[str].words == ToSeq(b.data);
    }
  }

  /** The bucket stands for the first `k` letters of `s`, and they still select the same words. */
  ghost predicate StandsFor(b: Bucket, s: Word, k: nat, added: seq<Word>, words: seq<Word>)
    reads b
  {
    k <= |s| && b.Key() == s[..k] && Matches(added, s[..k]) == words && ToSeq(b.data) == words
  }

  /**
   `find_longest_match`: only the counts of the buckets are compared, and yet the
   result is the longest common prefix of all words that extend the query, with
   the bucket that holds the same words.
   */
  method FindLongestMatch(ht: HashTable, str: Word, ghost added: seq<Word>) returns (b: Bucket?, length: nat)
    requires ht.Valid() && Indexes(ht.Contents(), added)
    ensures b == null <==> str == [] || Matches(added, str) == []
    ensures b == null ==> length == 0
    ensures b != null ==>
              && b in ht.Repr && b.Key() <= Matches(added, str)[0] && |str| <= length == |b.Key()|
              && IsLongestCommonPrefix(b.Key(), Matches(added, str)) && ToSeq(b.data) == Matches(added, str)
  {
    b := FindAllMatches(ht, str, added);
    if b == null {
      return null, 0;
    }
    var s := b.data.str;
    assert s == Matches(added, str)[0];
    MatchIn(added, str, s);
    assert s[..|str|] == str;
    b, length := Lengthen(ht, b, s, |str|, added, Matches(added, str));
  }

  method Lengthen(ht: HashTable, first: Bucket, s: Word, start: nat, ghost added: seq<Word>, ghost words: seq<Word>)
    returns (b: Bucket, length: nat)
    requires ht.Valid() && Indexes(ht.Contents(), added) && first in ht.Repr && first.count == |words|
    requires s in words && StandsFor(first, s, start, added, words)
    ensures b in ht.Repr && start <= length && StandsFor(b, s, length, added, words)
    ensures IsLongestCommonPrefix(s[..length], words)
  {
    b, length := first, start;
    while length < |s|
      invariant start <= length <= |s|
      invariant b in ht.Repr && StandsFor(b, s, length, added, words)
    {
      var n := OneLonger(ht, s, length, first.count, added);
      if n == null {
        break;
      }
      b := n;
      length := length + 1;
    }
    PrefixStops(added, words, s, length);
  }

  /** The bucket of a prefix one letter longer, if it has not lost a word. */
  method OneLonger(ht: HashTable, s: Word, length: nat, count: nat, ghost added: seq<Word>) returns (n: Bucket?)
    requires ht.Valid() && Indexes(ht.Contents(), added) && length < |s|
    requires s in Matches(added, s[..length]) && count == |Matches(added, s[..length])|
    ensures n == null ==> |Matches(added, s[..length + 1])| < count
    ensures n != null ==>
              && n in ht.Repr && n.Key() == s[..length + 1]
              && Matches(added, s[..length + 1]) == Matches(added, s[..length]) == ToSeq(n.data)
  {
    MatchesShrink(added, s[..length], s[..length + 1]);
    n := FindAllMatches(ht, s[..length + 1], added);
    if n != null && n.count < count {
      n := null;
    }
  }
}
