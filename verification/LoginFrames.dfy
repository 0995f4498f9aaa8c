/**
 What the two readers of the login file make of any bytes: they are whole frames
 that can be decrypted, up to a place that is cut short or broken.
 */
module LoginFrames {
  import opened Sequences
  import opened Bytes
  import opened Wrappers
  import opened LoginFile

  // ----- bytes in frames -------------------------------------------------------------------------------

  /** Each part behind its length. */
  function FramesOf(parts: seq<seq<byte>>): seq<byte> {
    if parts == [] then [] else Le4(|parts[0]|) + parts[0] + FramesOf(parts[1..])
  }

  /** The length that the bytes announce. */
  function Announced(tail: seq<byte>): nat
    requires |tail| >= 4
  {
    tail[0] + 256 * (tail[1] as int) + 65536 * (tail[2] as int) + 16777216 * (tail[3] as int)
  }

  /** The bytes end before the length or before what it announces. */
  predicate CutShort(tail: seq<byte>) {
    |tail| < 4 || (Announced(tail) <= 4096 && |tail| < 4 + Announced(tail))
  }

  /** A length of more than 4096, or a frame that cannot be decrypted. */
  predicate Broken(c: Cipher, tail: seq<byte>) {
    && |tail| >= 4
    && (Announced(tail) > 4096 || (|tail| >= 4 + Announced(tail) && c.dec(tail[4..4 + Announced(tail)]).None?))
  }

  /** What a part holds, up to a NUL. */
  predicate HoldsText(c: Cipher, part: seq<byte>, text: string) {
    && |part| <= 4096 && c.dec(part).Some?
    && var plain := c.dec(part).value;
       text <= plain && '\0' !in text && (|text| < |plain| ==> plain[|text|] == '\0')
  }

  predicate HoldTexts(c: Cipher, parts: seq<seq<byte>>, texts: seq<string>) {
    |parts| == |texts| && forall i | 0 <= i < |parts| :: HoldsText(c, parts[i], texts[i])
  }

  function Together(texts: seq<string>): string {
    if texts == [] then "" else texts[0] + Together(texts[1..])
  }

  lemma {:induction false} CStringIs(s: string)
    ensures var r := CString(s); r <= s && '\0' !in r && (|r| < |s| ==> s[|r|] == '\0')
  {
    if s != "" && s[0] != '\0' { CStringIs(s[1..]); }
  }

  lemma TextHeld(c: Cipher, part: seq<byte>)
    requires |part| <= 4096 && c.dec(part).Some?
    ensures HoldsText(c, part, CString(c.dec(part).value))
  {
    hide CString;
    CStringIs(c.dec(part).value);
  }

  lemma NoFrames()
    ensures FramesOf([]) == []
  {
  }

  lemma LengthBack(tail: seq<byte>)
    requires |tail| >= 4
    ensures FromLe4(tail[..4]) == Announced(tail) && (Announced(tail) <= 4096 ==> Le4(Announced(tail)) == tail[..4])
  {
    if Announced(tail) <= 4096 {
      var a, b: int := tail[0], tail[1];
      assert tail[2] == 0 && tail[3] == 0;
      assert Announced(tail) == a + 256 * b;
      assert tail[..4] == [tail[0], tail[1], tail[2], tail[3]];
    }
  }

  lemma OneMore(part: seq<byte>, parts: seq<seq<byte>>, tail: seq<byte>)
    ensures FramesOf([part] + parts) + tail == Le4(|part|) + part + (FramesOf(parts) + tail)
  {
    assert ([part] + parts)[1..] == parts;
    Assoc(Le4(|part|) + part, FramesOf(parts), tail);
  }

  /** The first frame, and what is behind it. */
  lemma Apart(f: seq<byte>)
    requires |f| >= 4 && Announced(f) <= 4096 && |f| >= 4 + Announced(f)
    ensures var n := Announced(f); f == Le4(n) + f[4..4 + n] + f[4 + n..] && |f[4..4 + n]| == n
  {
    LengthBack(f);
    var n := Announced(f);
    assert f == f[..4] + f[4..4 + n] + f[4 + n..];
  }

  // ----- the editor ------------------------------------------------------------------------------------------

  /** The bytes are these frames, with these texts, up to a place at which reading ends. */
  predicate ReadsAs(c: Cipher, f: seq<byte>, parts: seq<seq<byte>>, texts: seq<string>, tail: seq<byte>) {
    f == FramesOf(parts) + tail && HoldTexts(c, parts, texts) && (CutShort(tail) || Broken(c, tail))
  }

  lemma {:induction false} FramesFound(c: Cipher, f: seq<byte>) returns (parts: seq<seq<byte>>, texts: seq<string>, tail: seq<byte>)
    ensures ReadsAs(c, f, parts, texts, tail)
    ensures ReadFrames(c, f) == if Broken(c, tail) then None else Some(Together(texts))
    decreases |f|
  {
    hide HoldsText, Announced, FramesOf, Le4, FromLe4, CString;
    if |f| >= 4 { LengthBack(f); }
    NoFrames();
    if CutShort(f) || Broken(c, f) {
      parts, texts, tail := [], [], f;
      assert [] + f == f;
    } else {
      var n := Announced(f);
      var part, rest := f[4..4 + n], f[4 + n..];
      Apart(f);
      var more, others;
      more, others, tail := FramesFound(c, rest);
      var text := CString(c.dec(part).value);
      TextHeld(c, part);
      parts, texts := [part] + more, [text] + others;
      OneMore(part, more, tail);
      assert texts[1..] == others;
    }
  }

  /**
   Any file is read: it is frames that can be decrypted, up to its end, a place where it
   is cut short, or one that is broken.  The texts of the frames, each up to a NUL, are
   returned together, and nothing exactly if a broken place was met.
   */
  lemma EveryFileRead(c: Cipher, f: seq<byte>)
    ensures exists parts, texts, tail ::
              ReadsAs(c, f, parts, texts, tail) && ReadFrames(c, f) == if Broken(c, tail) then None else Some(Together(texts))
  {
    hide ReadsAs, Broken;
    var parts, texts, tail := FramesFound(c, f);
  }

  // ----- the second reader -------------------------------------------------------------------------------------

  /** The second reader stops at a length of zero, and takes an empty text for a failure. */
  predicate Stops(tail: seq<byte>) {
    |tail| < 4 || Announced(tail) == 0
  }

  predicate Fails(c: Cipher, tail: seq<byte>) {
    && |tail| >= 4 && Announced(tail) != 0
    && (|| Announced(tail) > 4096 || |tail| < 4 + Announced(tail)
        || var plain := c.dec(tail[4..4 + Announced(tail)]); plain.None? || |plain.value| == 0 || |plain.value| > 4096)
  }

  predicate DecryptsAs(c: Cipher, f: seq<byte>, parts: seq<seq<byte>>, texts: seq<string>, tail: seq<byte>) {
    f == FramesOf(parts) + tail && HoldTexts(c, parts, texts) && (Stops(tail) || Fails(c, tail))
  }

  lemma {:induction false} FramesDecrypted(c: Cipher, f: seq<byte>) returns (parts: seq<seq<byte>>, texts: seq<string>, tail: seq<byte>)
    ensures DecryptsAs(c, f, parts, texts, tail)
    ensures DecryptFrames(c, f) == if Fails(c, tail) then None else Some(Together(texts))
    decreases |f|
  {
    hide HoldsText, Announced, FramesOf, Le4, FromLe4, CString;
    if |f| >= 4 { LengthBack(f); }
    NoFrames();
    if Stops(f) || Fails(c, f) {
      parts, texts, tail := [], [], f;
      assert [] + f == f;
    } else {
      var n := Announced(f);
      var part, rest := f[4..4 + n], f[4 + n..];
      Apart(f);
      var more, others;
      more, others, tail := FramesDecrypted(c, rest);
      var text := CString(c.dec(part).value);
      TextHeld(c, part);
      parts, texts := [part] + more, [text] + others;
      OneMore(part, more, tail);
      assert texts[1..] == others;
    }
  }

  /** The same for the second reader, which takes a frame that is cut short for a failure. */
  lemma EveryFileDecrypted(c: Cipher, f: seq<byte>)
    ensures exists parts, texts, tail ::
              DecryptsAs(c, f, parts, texts, tail) && DecryptFrames(c, f) == if Fails(c, tail) then None else Some(Together(texts))
  {
    hide DecryptsAs, Fails;
    var parts, texts, tail := FramesDecrypted(c, f);
  }
}
