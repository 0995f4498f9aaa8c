/**
 The login file: a header with the key, and every line of the text encrypted on
 its own behind its four-byte length.  The cipher is a parameter: it lengthens a
 text to whole blocks and can be undone.
 */
module LoginFile {
  import opened Sequences
  import opened Bytes
  import opened Wrappers
  import opened LoginText
  import opened LoginBuffer

  const MY_LINE_MAX := 4096
  const MAX_CIPHER_STORE_LEN := 4
  const LOGIN_KEY_LEN := 20

  datatype Cipher = Cipher(enc: string -> seq<byte>, dec: seq<byte> -> Option<string>)

  /** `my_aes_get_size` for blocks of 16 bytes. */
  function AesSize(n: nat): nat {
    16 * (n / 16) + 16
  }

  /** A text of bytes, as every C string is. */
  predicate ByteText(s: string) {
    forall c | c in s :: c < 256 as char
  }

  /** On texts of bytes the cipher fills whole blocks and can be undone. */
  ghost predicate Works(c: Cipher) {
    forall s: string | ByteText(s) :: |c.enc(s)| == AesSize(|s|) && c.dec(c.enc(s)) == Some(s)
  }

  // ----- there are such ciphers --------------------------------------------------------------------------

  function ToBytes(s: string): seq<byte> {
    seq(|s|, i requires 0 <= i < |s| => s[i] as int % 256)
  }

  function FromBytes(b: seq<byte>): string {
    seq(|b|, i requires 0 <= i < |b| => b[i] as char)
  }

  /** The padding of PKCS #7, with no encryption. */
  function Pad(s: string): seq<byte> {
    var p: byte := 16 - |s| % 16;
    ToBytes(s) + seq(p, _ => p)
  }

  function Unpad(b: seq<byte>): Option<string> {
    if b == [] || b[|b| - 1] > |b| then None else Some(FromBytes(b[..|b| - b[|b| - 1]]))
  }

  lemma BytesBack(s: string)
    requires ByteText(s)
    ensures FromBytes(ToBytes(s)) == s
  {
    forall i | 0 <= i < |s| ensures FromBytes(ToBytes(s))[i] == s[i] { assert s[i] in s; }
  }

  /** The block padding meets the assumptions about the cipher. */
  lemma PaddingWorks()
    ensures Works(Cipher(Pad, Unpad))
  {
    forall s: string | ByteText(s) ensures |Pad(s)| == AesSize(|s|) && Unpad(Pad(s)) == Some(s) {
      var p := 16 - |s| % 16;
      BytesBack(s);
      assert Pad(s)[|Pad(s)| - 1] == p && Pad(s)[..|s|] == ToBytes(s);
    }
  }

  // ----- writing -----------------------------------------------------------------------------------------

  /** A line with its newline, encrypted, would not fit. */
  predicate TooLong(n: nat) {
    AesSize(n) > MY_LINE_MAX - MAX_CIPHER_STORE_LEN
  }

  /** With its newline a line may have 4079 characters. */
  lemma LongestLine(n: nat)
    ensures TooLong(n) <==> n > 4079
  {
    assert n / 16 >= 255 <==> n >= 4080;
  }

  function Frame(c: Cipher, line: string): seq<byte> {
    Le4(AesSize(|line|)) + c.enc(line)
  }

  /** What `encrypt_and_write_file` writes behind the header: it stops at a line that is too long. */
  function Frames(c: Cipher, t: string): seq<byte>
    decreases |t|
  {
    var n := LineLength(t);
    if n == |t| || TooLong(n + 1) then [] else Frame(c, t[..n + 1]) + Frames(c, t[n + 1..])
  }

  /** No line of the text is too long. */
  predicate Fits(t: string)
    decreases |t|
  {
    var n := LineLength(t);
    n == |t| || (!TooLong(n + 1) && Fits(t[n + 1..]))
  }

  /** The text up to its last newline. */
  function Complete(t: string): string
    decreases |t|
  {
    var n := LineLength(t);
    if n == |t| then "" else t[..n + 1] + Complete(t[n + 1..])
  }

  /** The lines before the first one that is too long. */
  function Kept(t: string): string
    decreases |t|
  {
    var n := LineLength(t);
    if n == |t| || TooLong(n + 1) then "" else t[..n + 1] + Kept(t[n + 1..])
  }

  // ----- reading --------------------------------------------------------------------------------------------

  /** A text as a C string: up to the first NUL. */
  function CString(s: string): string {
    if s == "" || s[0] == '\0' then "" else [s[0]] + CString(s[1..])
  }

  function Joined(a: string, b: Option<string>): Option<string> {
    if b.None? then None else Some(a + b.value)
  }

  /** `read_and_decrypt_file` behind the header: none when it fails. */
  function ReadFrames(c: Cipher, f: seq<byte>): Option<string>
    decreases |f|
  {
    if |f| < 4 then Some("")
    else
      var len := FromLe4(f[..4]);
      if len > MY_LINE_MAX then None
      else if |f| < 4 + len then Some("")
      else match c.dec(f[4..4 + len])
        case None => None
        case Some(plain) => Joined(CString(plain), ReadFrames(c, f[4 + len..]))
  }

  /** `decrypt_login_cnf_file` behind the header: it also stops at a length of zero. */
  function DecryptFrames(c: Cipher, f: seq<byte>): Option<string>
    decreases |f|
  {
    if |f| < 4 || FromLe4(f[..4]) == 0 then Some("")
    else
      var len := FromLe4(f[..4]);
      if len > MY_LINE_MAX || |f| < 4 + len then None
      else match c.dec(f[4..4 + len])
        case None => None
        case Some(plain) =>
          if |plain| == 0 || |plain| > MY_LINE_MAX then None else Joined(CString(plain), DecryptFrames(c, f[4 + len..]))
  }

  // ----- the round trip ---------------------------------------------------------------------------------------

  /** What a C string can hold: bytes other than NUL. */
  predicate CText(s: string) {
    '\0' !in s && ByteText(s)
  }

  lemma CTextParts(s: string, n: nat)
    requires CText(s) && n <= |s|
    ensures CText(s[..n]) && CText(s[n..])
  {
    assert forall c | c in s[..n] || c in s[n..] :: c in s;
  }

  lemma {:induction false} CStringSame(s: string)
    requires '\0' !in s
    ensures CString(s) == s
  {
    if s != "" { CStringSame(s[1..]); }
  }

  lemma FrameFits(n: nat)
    requires 0 < n && !TooLong(n)
    ensures 0 < AesSize(n) <= MY_LINE_MAX && n <= AesSize(n) && FromLe4(Le4(AesSize(n))) == AesSize(n)
  {
    Le4RoundTrip(AesSize(n));
  }

  /** Behind a frame, both readers get its line and go on with the rest. */
  lemma FrameRead(c: Cipher, line: string, rest: seq<byte>)
    requires Works(c) && line != "" && CText(line) && !TooLong(|line|)
    ensures ReadFrames(c, Frame(c, line) + rest) == Joined(line, ReadFrames(c, rest))
    ensures DecryptFrames(c, Frame(c, line) + rest) == Joined(line, DecryptFrames(c, rest))
  {
    var f, len := Frame(c, line) + rest, AesSize(|line|);
    FrameFits(|line|);
    CStringSame(line);
    assert |c.enc(line)| == len && c.dec(c.enc(line)) == Some(line);
    FrameParts(Le4(len), c.enc(line), rest, len);
  }

  lemma FrameParts(l: seq<byte>, e: seq<byte>, rest: seq<byte>, len: nat)
    requires |l| == 4 && |e| == len
    ensures var f := l + e + rest; f[..4] == l && |f| >= 4 + len && f[4..4 + len] == e && f[4 + len..] == rest
  {
  }

  /** Whatever was written, either reader returns the lines before the first one that was too long. */
  lemma {:induction false} FramesRead(c: Cipher, t: string)
    requires Works(c) && CText(t)
    ensures ReadFrames(c, Frames(c, t)) == Some(Kept(t)) && DecryptFrames(c, Frames(c, t)) == Some(Kept(t))
    decreases |t|
  {
    hide Frame, LineLength;
    var n := LineLength(t);
    if n < |t| && !TooLong(n + 1) {
      CTextParts(t, n + 1);
      FramesRead(c, t[n + 1..]);
      FrameRead(c, t[..n + 1], Frames(c, t[n + 1..]));
    }
  }

  /** All complete lines are kept exactly if none is too long. */
  lemma {:induction false} KeptIff(t: string)
    ensures |Kept(t)| <= |Complete(t)| && (Kept(t) == Complete(t) <==> Fits(t))
    decreases |t|
  {
    hide LineLength, AesSize;
    var n := LineLength(t);
    if n < |t| {
      KeptIff(t[n + 1..]);
      var line, a, b := t[..n + 1], Kept(t[n + 1..]), Complete(t[n + 1..]);
      assert (line + a)[n + 1..] == a && (line + b)[n + 1..] == b;
    }
  }

  /** The complete lines are a prefix that ends with a newline, and what follows them has none. */
  lemma {:induction false} CompleteIs(t: string)
    ensures var k := |Complete(t)|; k <= |t| && Complete(t) == t[..k] && Terminated(t[..k]) && '\n' !in t[k..]
    decreases |t|
  {
    hide LineLength;
    LineLengthSplits(t);
    var n := LineLength(t);
    if n < |t| {
      var rest := t[n + 1..];
      CompleteIs(rest);
      var k := |Complete(rest)|;
      FirstPart(t, n + 1, k);
    } else {
      assert t[..n] == t && t[0..] == t;
    }
  }

  lemma FirstPart(t: string, n: nat, k: nat)
    requires 0 < n <= |t| && k <= |t[n..]| && Terminated(t[n..][..k]) && t[n - 1] == '\n'
    ensures t[..n] + t[n..][..k] == t[..n + k] && t[n..][k..] == t[n + k..] && Terminated(t[..n + k])
  {
    assert t[..n] + t[n..][..k] == t[..n + k];
    assert t[n..][k..] == t[n + k..];
    assert t[..n + k][n + k - 1] == t[n + k - 1];
    assert k > 0 ==> t[n..][..k][k - 1] == t[n + k - 1];
  }

  /** The round trip is the identity exactly for texts without too long a line that are empty or end with a newline. */
  lemma RoundTripIff(c: Cipher, t: string)
    requires Works(c) && CText(t)
    ensures ReadFrames(c, Frames(c, t)) == Some(t) <==> Fits(t) && Terminated(t)
    ensures DecryptFrames(c, Frames(c, t)) == ReadFrames(c, Frames(c, t))
  {
    hide Complete, Kept, Frames, ReadFrames, DecryptFrames, Fits;
    FramesRead(c, t);
    KeptIff(t);
    CompleteIs(t);
    var k := |Complete(t)|;
    if k < |t| {
      assert t[k..][|t| - 1 - k] == t[|t| - 1];
    }
    assert t[..|t|] == t;
  }

  /** A last line without a newline is lost. */
  lemma UnfinishedLineLost(c: Cipher)
    requires Works(c)
    ensures ReadFrames(c, Frames(c, ['a'])) == Some("")
  {
    hide Frames, ReadFrames, LineLength;
    FramesRead(c, ['a']);
    LineLengthSplits(['a']);
    assert LineLength(['a']) == 1;
  }

  /** A line of 4080 characters is lost, and so is what stands behind it. */
  lemma LongLineLost(c: Cipher)
    requires Works(c)
    ensures ReadFrames(c, Frames(c, seq(4079, _ => 'a') + "\n" + "user=a\n")) == Some("")
  {
    hide Frames, ReadFrames, LineLength;
    var l := seq(4079, _ => 'a');
    var t := l + "\n" + "user=a\n";
    assert t == l + ("\n" + "user=a\n");
    FramesRead(c, t);
    LineLengthIs(l, "user=a\n");
    LongestLine(|l| + 1);
  }

  // ----- the programs ---------------------------------------------------------------------------------------------

  function FileHeader(key: seq<byte>): seq<byte> {
    [0, 0, 0, 0] + key
  }

  /** The header is four unused bytes, which are zero, and the key. */
  lemma HeaderIs(key: seq<byte>, rest: seq<byte>)
    requires |key| == 20
    ensures var f := FileHeader(key) + rest; f[..4] == [0, 0, 0, 0] && KeyOf(f) == f[4..24] == key && Body(f) == f[24..] == rest
  {
    var f := FileHeader(key) + rest;
    assert f[4..24] == key;
  }

  /** What stands behind the header. */
  function Body(f: seq<byte>): seq<byte> {
    if |f| < MAX_CIPHER_STORE_LEN + LOGIN_KEY_LEN then [] else f[MAX_CIPHER_STORE_LEN + LOGIN_KEY_LEN..]
  }

  function KeyOf(f: seq<byte>): seq<byte> {
    if |f| < MAX_CIPHER_STORE_LEN + LOGIN_KEY_LEN then [] else f[MAX_CIPHER_STORE_LEN..MAX_CIPHER_STORE_LEN + LOGIN_KEY_LEN]
  }

  /** The inner loop of `encrypt_and_write_file`: counts up to the newline, or finds that there is none. */
  method CountLine(buf: DynamicString, bytesRead: nat) returns (len: nat, done: bool)
    requires buf.Valid() && bytesRead <= buf.length
    ensures var rest := buf.Text()[bytesRead..]; len == LineLength(rest) && (done <==> len == |rest|)
  {
    hide LineLength;
    len, done := 0, false;
    var tmp := bytesRead;
    ghost var rest := buf.Text()[bytesRead..];
    while !done && buf.str[tmp] != '\n'
      invariant len <= buf.length - bytesRead && '\n' !in rest[..len]
      invariant if done then len == |rest| else tmp == bytesRead + len
      decreases !done, buf.length - bytesRead - len
    {
      tmp := tmp + 1;
      if len < buf.length - bytesRead {
        assert rest[..len + 1] == rest[..len] + [rest[len]];
        len := len + 1;
      } else {
        done := true;
      }
    }
    CountIs(rest, len);
  }

  lemma CountIs(rest: string, len: nat)
    requires len <= |rest| && '\n' !in rest[..len] && (len < |rest| ==> rest[len] == '\n')
    ensures LineLength(rest) == len
  {
    hide LineLength;
    LineLengthSplits(rest);
  }

  /** One turn of the writing loop. */
  lemma WriteOne(c: Cipher, t: string, k: nat)
    requires k <= |t|
    ensures var rest := t[k..];
            var n := LineLength(rest);
            && (n == |rest| ==> Frames(c, rest) == [] && Fits(rest))
            && (n < |rest| && TooLong(n + 1) ==> Frames(c, rest) == [] && !Fits(rest))
            && (n < |rest| && !TooLong(n + 1) ==>
                  && Frames(c, rest) == Frame(c, t[k..k + n + 1]) + Frames(c, t[k + n + 1..])
                  && (Fits(rest) <==> Fits(t[k + n + 1..])))
  {
    hide LineLength, AesSize;
    var rest, n := t[k..], LineLength(t[k..]);
    if n < |rest| { assert rest[..n + 1] == t[k..k + n + 1] && rest[n + 1..] == t[k + n + 1..]; }
  }

  class LoginStore {
    const cipher: Cipher
    const key: seq<byte>
    var data: seq<byte>

    constructor (cipher: Cipher, key: seq<byte>, data: seq<byte>)
      ensures this.cipher == cipher && this.key == key && this.data == data
    {
      this.cipher, this.key, this.data := cipher, key, data;
    }

    /** `encrypt_and_write_file`: the file is emptied first, so a failure loses what follows the line that is too long. */
    method EncryptAndWriteFile(buf: DynamicString) returns (ok: bool)
      requires buf.Valid()
      modifies this`data
      ensures data == FileHeader(key) + Frames(cipher, buf.Text()) && (ok <==> Fits(buf.Text()))
    {
      hide LineLength, AesSize, Frames, Fits, Frame;
      data := FileHeader(key);
      var bytesRead, done := 0, false;
      ghost var t := buf.Text();
      ghost var all := FileHeader(key) + Frames(cipher, t);
      assert t[0..] == t;
      while !done
        invariant bytesRead <= buf.length && t == buf.Text()
        invariant all == data + (if done then [] else Frames(cipher, t[bytesRead..]))
        invariant Fits(t) <==> done || Fits(t[bytesRead..])
        decreases !done, buf.length - bytesRead
      {
        var len;
        len, done := CountLine(buf, bytesRead);
        WriteOne(cipher, t, bytesRead);
        if !done {
          if TooLong(len + 1) {
            assert data + [] == data;
            return false;
          }
          var line := buf.str[..buf.length][bytesRead..bytesRead + len + 1];
          Assoc(data, Frame(cipher, line), Frames(cipher, t[bytesRead + len + 1..]));
          data := data + Frame(cipher, line);
          bytesRead := bytesRead + len + 1;
        }
      }
      assert data + [] == data;
      return true;
    }

    /** `read_and_decrypt_file`: appends to the buffer. */
    method ReadAndDecryptFile(buf: DynamicString) returns (ok: bool)
      requires buf.Valid()
      modifies buf, buf.str
      ensures var r := ReadFrames(cipher, Body(data)); (ok <==> r.Some?) && (ok ==> buf.Valid() && buf.Text() == old(buf.Text()) + r.value)
      ensures buf.str == old(buf.str) || fresh(buf.str)
    {
      hide ReadFrames, CString;
      var f := Body(data);
      ghost var all, read := ReadFrames(cipher, f), "";
      assert old(buf.Text()) + read == buf.Text();
      JoinedNothing("", all);
      var more := true;
      while more && |f| >= 4
        invariant buf.Valid() && (buf.str == old(buf.str) || fresh(buf.str)) && buf.Text() == old(buf.Text()) + read
        invariant all == Joined(read, if more then ReadFrames(cipher, f) else Some(""))
        decreases more, |f|
      {
        ghost var before := f;
        var len := FromLe4(f[..4]);
        ReadOne(cipher, f);
        if len > MY_LINE_MAX {
          return false;
        }
        if |f| < 4 + len {
          more := false;
        } else {
          var plain := cipher.dec(f[4..4 + len]);
          if plain.None? {
            return false;
          }
          NoNul(plain.value);
          JoinedTwice(read, CString(plain.value), ReadFrames(cipher, f[4 + len..]));
          Assoc(old(buf.Text()), read, CString(plain.value));
          buf.Append(CString(plain.value));
          read := read + CString(plain.value);
          f := f[4 + len..];
        }
      }
      if more { ReadOne(cipher, f); }
      JoinedNothing(read, None);
      return true;
    }
  }

  lemma {:induction false} NoNul(s: string)
    ensures '\0' !in CString(s)
  {
    if s != "" { NoNul(s[1..]); }
  }

  lemma JoinedTwice(a: string, b: string, r: Option<string>)
    ensures Joined(a, Joined(b, r)) == Joined(a + b, r)
  {
    if r.Some? { Assoc(a, b, r.value); }
  }

  lemma JoinedNothing(a: string, r: Option<string>)
    ensures Joined("", r) == r && Joined(a, Some("")) == Some(a)
  {
    assert a + "" == a;
    if r.Some? { assert "" + r.value == r.value; }
  }

  /** One turn of the reading loop. */
  lemma ReadOne(c: Cipher, f: seq<byte>)
    ensures |f| < 4 ==> ReadFrames(c, f) == Some("")
    ensures |f| >= 4 ==>
              var len := FromLe4(f[..4]);
              ReadFrames(c, f) ==
              if len > MY_LINE_MAX then None else if |f| < 4 + len then Some("")
              else if c.dec(f[4..4 + len]).None? then None
              else Joined(CString(c.dec(f[4..4 + len]).value), ReadFrames(c, f[4 + len..]))
  {
  }

  /** `decrypt_login_cnf_file`; none is its error. */
  method DecryptLoginCnfFile(aes: seq<byte> -> Cipher, file: seq<byte>) returns (r: Option<string>)
    ensures r == DecryptFrames(aes(KeyOf(file)), Body(file))
  {
    hide DecryptFrames;
    var c, f, out := aes(KeyOf(file)), Body(file), "";
    ghost var all := DecryptFrames(c, f);
    JoinedNothing("", all);
    while |f| >= 4 && FromLe4(f[..4]) != 0
      invariant all == Joined(out, DecryptFrames(c, f))
      decreases |f|
    {
      var len := FromLe4(f[..4]);
      DecryptOne(c, f);
      if len > MY_LINE_MAX || |f| < 4 + len {
        return None;
      }
      var plain := c.dec(f[4..4 + len]);
      if plain.None? || |plain.value| == 0 || |plain.value| > MY_LINE_MAX {
        return None;
      }
      JoinedTwice(out, CString(plain.value), DecryptFrames(c, f[4 + len..]));
      out := out + CString(plain.value);
      f := f[4 + len..];
    }
    DecryptOne(c, f);
    JoinedNothing(out, None);
    return Some(out);
  }

  lemma DecryptOne(c: Cipher, f: seq<byte>)
    ensures |f| < 4 || FromLe4(f[..4]) == 0 ==> DecryptFrames(c, f) == Some("")
    ensures |f| >= 4 && FromLe4(f[..4]) != 0 ==>
              var len := FromLe4(f[..4]);
              DecryptFrames(c, f) ==
              if len > MY_LINE_MAX || |f| < 4 + len || c.dec(f[4..4 + len]).None? then None
              else var plain := c.dec(f[4..4 + len]).value;
                   if |plain| == 0 || |plain| > MY_LINE_MAX then None else Joined(CString(plain), DecryptFrames(c, f[4 + len..]))
  {
  }

  /** Both readers recover a text that ends with a newline from the file that was written for it. */
  lemma FileRoundTrip(aes: seq<byte> -> Cipher, key: seq<byte>, t: string)
    requires |key| == LOGIN_KEY_LEN && Works(aes(key)) && CText(t) && Fits(t) && Terminated(t)
    ensures var f := FileHeader(key) + Frames(aes(key), t);
            && ReadFrames(aes(key), Body(f)) == Some(t)
            && KeyOf(f) == key && DecryptFrames(aes(KeyOf(f)), Body(f)) == Some(t)
  {
    hide Frames, ReadFrames, DecryptFrames;
    RoundTripIff(aes(key), t);
    var f := FileHeader(key) + Frames(aes(key), t);
    assert f[4..24] == key && f[24..] == Frames(aes(key), t);
  }
}
