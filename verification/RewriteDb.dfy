/**
 --rewrite-db of `mysqlbinlog`: replacing the database name inside the bytes of an
 event, with the length byte and the event length in the header kept in step.
 */
module RewriteDb {
  import opened Bytes
  import opened Wrappers

  const EVENT_TYPE_OFFSET := 4
  const EVENT_LEN_OFFSET := 9
  const HEADER_LEN := 19
  const Q_DB_LEN_OFFSET := 8
  const Q_STATUS_VARS_LEN_OFFSET := 11
  const QUERY_HEADER_MINIMAL_LEN := 11
  const EXECUTE_LOAD_QUERY_EXTRA_HEADER_LEN := 13
  const QUERY_EVENT: byte := 2
  const EXECUTE_LOAD_QUERY_EVENT: byte := 18
  const TABLE_MAP_EVENT: byte := 19

  type Rewrites = map<seq<byte>, seq<byte>>

  // ----- where the name is --------------------------------------------------------------------

  /** The name starts at `db` and its length is the byte at `len`. */
  datatype Place = Place(db: nat, len: nat)

  /** The place lies behind the header fields, and the name it announces inside the event. */
  predicate Announced(buf: seq<byte>, p: Place) {
    EVENT_LEN_OFFSET + 4 <= p.len < p.db <= |buf| && p.db + buf[p.len] <= |buf|
  }

  /** The name as the parser of the event reads it, with its length byte unsigned. */
  function ParsedName(buf: seq<byte>, p: Place): seq<byte>
    requires Announced(buf, p)
  {
    buf[p.db..p.db + buf[p.len]]
  }

  /** `rewrite_db` reads the length byte as a signed one: a longer name would be negative. */
  predicate Inside(buf: seq<byte>, p: Place) {
    Announced(buf, p) && buf[p.len] < 128
  }

  /** The name as `rewrite_db` reads it. */
  function NameAt(buf: seq<byte>, p: Place): seq<byte>
    requires Inside(buf, p)
  {
    ParsedName(buf, p)
  }

  function LengthField(buf: seq<byte>): nat
    requires |buf| >= EVENT_LEN_OFFSET + 4
  {
    FromLe4(buf[EVENT_LEN_OFFSET..EVENT_LEN_OFFSET + 4])
  }

  // ----- the rewritten event --------------------------------------------------------------------

  function StoreAt(buf: seq<byte>, at: nat, bytes: seq<byte>): (r: seq<byte>)
    requires at + |bytes| <= |buf|
    ensures |r| == |buf|
  {
    buf[..at] + bytes + buf[at + |bytes|..]
  }

  /** What one byte keeps of a length. */
  function LengthByte(n: nat): (r: byte)
    ensures n < 256 ==> r == n
  {
    n % 256
  }

  /** The bytes of the event with `name` in place of its database; of its length one byte is kept. */
  function Rewritten(buf: seq<byte>, p: Place, name: seq<byte>): (r: seq<byte>)
    requires Inside(buf, p)
    ensures |r| == |buf| - buf[p.len] + |name|
  {
    var moved := buf[..p.db] + name + buf[p.db + buf[p.len]..];
    StoreAt(moved[p.len := LengthByte(|name|)], EVENT_LEN_OFFSET, Le4(|moved|))
  }

  lemma RewrittenBytes(buf: seq<byte>, p: Place, name: seq<byte>)
    requires Inside(buf, p)
    ensures var r := Rewritten(buf, p, name);
            && (forall k | 0 <= k < p.db && k != p.len && !(EVENT_LEN_OFFSET <= k < EVENT_LEN_OFFSET + 4) :: r[k] == buf[k])
            && r[p.len] == LengthByte(|name|)
            && r[EVENT_LEN_OFFSET..EVENT_LEN_OFFSET + 4] == Le4(|r|)
            && r[p.db..p.db + |name|] == name
            && r[p.db + |name|..] == buf[p.db + buf[p.len]..]
  {
    var tail := buf[p.db + buf[p.len]..];
    var moved := buf[..p.db] + name + tail;
    var stored := moved[p.len := LengthByte(|name|)];
    hide StoreAt, Le4, LengthByte;
    assert moved[p.db..] == name + tail;
    StoredAt(stored, EVENT_LEN_OFFSET, Le4(|moved|));
    var r := Rewritten(buf, p, name);
    assert r[p.db..] == name + tail;
    assert r[p.db..p.db + |name|] == r[p.db..][..|name|] && r[p.db + |name|..] == r[p.db..][|name|..];
  }

  lemma StoredAt(buf: seq<byte>, at: nat, bytes: seq<byte>)
    requires at + |bytes| <= |buf|
    ensures var r := StoreAt(buf, at, bytes);
            && r[at..at + |bytes|] == bytes
            && (forall k | 0 <= k < |buf| && !(at <= k < at + |bytes|) :: r[k] == buf[k])
  {
  }

  /**
   The rewritten event carries the new name and its own length, and every other
   byte is where it was or moved with the tail.
   */
  lemma RewrittenParses(buf: seq<byte>, p: Place, name: seq<byte>)
    requires Inside(buf, p) && |name| < 256
    ensures var r := Rewritten(buf, p, name);
            && Announced(r, p) && ParsedName(r, p) == name && (Inside(r, p) <==> |name| < 128)
            && (|r| < 0x1_0000_0000 ==> LengthField(r) == |r|)
            && r[p.db + |name|..] == buf[p.db + buf[p.len]..]
            && forall k | 0 <= k < p.db && k != p.len && !(EVENT_LEN_OFFSET <= k < EVENT_LEN_OFFSET + 4) :: r[k] == buf[k]
  {
    hide LengthByte, Rewritten;
    RewrittenBytes(buf, p, name);
    var r := Rewritten(buf, p, name);
    if |r| < 0x1_0000_0000 { Le4RoundTrip(|r|); }
  }

  /** The parser reads the new name back exactly if it has less than 256 bytes. */
  lemma ReadBackIff(buf: seq<byte>, p: Place, name: seq<byte>)
    requires Inside(buf, p)
    ensures var r := Rewritten(buf, p, name); Announced(r, p) && ParsedName(r, p) == name <==> |name| < 256
  {
    hide Rewritten;
    if |name| < 256 {
      RewrittenParses(buf, p, name);
    } else {
      RewrittenBytes(buf, p, name);
    }
  }

  /** Of a name of 256 bytes the parser reads none. */
  lemma LongNameLost(buf: seq<byte>, p: Place, b: byte)
    requires Inside(buf, p)
    ensures var r := Rewritten(buf, p, seq(256, _ => b)); Announced(r, p) && ParsedName(r, p) == []
  {
    hide Rewritten;
    RewrittenBytes(buf, p, seq(256, _ => b));
  }

  /** A second pass finds the new name exactly if it has less than 128 bytes. */
  lemma SecondPassIff(buf: seq<byte>, p: Place, name: seq<byte>)
    requires Inside(buf, p)
    ensures var r := Rewritten(buf, p, name); Inside(r, p) && NameAt(r, p) == name <==> |name| < 128
  {
    hide Rewritten;
    ReadBackIff(buf, p, name);
    if |name| < 256 { RewrittenParses(buf, p, name); }
  }

  /** A name of 128 bytes, which the parser reads, a second pass does not find. */
  lemma SecondPassFails(buf: seq<byte>, p: Place, b: byte)
    requires Inside(buf, p)
    ensures var name := seq(128, _ => b);
            var r := Rewritten(buf, p, name);
            Announced(r, p) && ParsedName(r, p) == name && !Inside(r, p)
  {
    hide Rewritten;
    RewrittenParses(buf, p, seq(128, _ => b));
  }

  /** A second pass finds the new name and gives back the original event, if and only if the name has less than 128 bytes and the header held the true length. */
  lemma RewriteBackIff(buf: seq<byte>, p: Place, name: seq<byte>)
    requires Inside(buf, p)
    ensures var r := Rewritten(buf, p, name);
            Inside(r, p) && NameAt(r, p) == name && Rewritten(r, p, NameAt(buf, p)) == buf
            <==> |name| < 128 && buf[EVENT_LEN_OFFSET..EVENT_LEN_OFFSET + 4] == Le4(|buf|)
  {
    hide Rewritten, Le4;
    SecondPassIff(buf, p, name);
    if |name| < 128 { RewriteBack(buf, p, name); }
  }

  /** Rewriting back gives the original event if and only if its header held its true length. */
  lemma RewriteBack(buf: seq<byte>, p: Place, name: seq<byte>)
    requires Inside(buf, p) && |name| < 128
    ensures Inside(Rewritten(buf, p, name), p)
    ensures Rewritten(Rewritten(buf, p, name), p, NameAt(buf, p)) == buf
            <==> buf[EVENT_LEN_OFFSET..EVENT_LEN_OFFSET + 4] == Le4(|buf|)
  {
    hide LengthByte, Le4, Rewritten;
    var was := NameAt(buf, p);
    var r := Rewritten(buf, p, name);
    RewrittenParses(buf, p, name);
    var back := Rewritten(r, p, was);
    RewrittenBytes(r, p, was);
    if buf[EVENT_LEN_OFFSET..EVENT_LEN_OFFSET + 4] == Le4(|buf|) {
      SameBytes(buf, back, p);
    }
  }

  lemma SameBytes(buf: seq<byte>, back: seq<byte>, p: Place)
    requires Inside(buf, p) && |back| == |buf| && back[p.len] == buf[p.len]
    requires forall k | 0 <= k < p.db && k != p.len && !(EVENT_LEN_OFFSET <= k < EVENT_LEN_OFFSET + 4) :: back[k] == buf[k]
    requires back[EVENT_LEN_OFFSET..EVENT_LEN_OFFSET + 4] == buf[EVENT_LEN_OFFSET..EVENT_LEN_OFFSET + 4]
    requires var e := p.db + buf[p.len]; back[p.db..e] == buf[p.db..e] && back[e..] == buf[e..]
    ensures back == buf
  {
    var e := p.db + buf[p.len];
    forall k | 0 <= k < |buf| ensures back[k] == buf[k] {
      if EVENT_LEN_OFFSET <= k < EVENT_LEN_OFFSET + 4 {
        assert back[k] == back[EVENT_LEN_OFFSET..EVENT_LEN_OFFSET + 4][k - EVENT_LEN_OFFSET];
      } else if p.db <= k < e {
        assert back[k] == back[p.db..e][k - p.db];
      } else if e <= k {
        assert back[k] == back[e..][k - e];
      }
    }
  }

  // ----- the two callers and the filter -----------------------------------------------------------

  /** The header sizes announced by the format description event. */
  datatype Format = Format(commonLen: nat, queryLen: nat, tableMapLen: nat)

  predicate ValidFormat(f: Format) {
    f.commonLen >= HEADER_LEN
    && (f.queryLen == QUERY_HEADER_MINIMAL_LEN || f.queryLen >= QUERY_HEADER_MINIMAL_LEN + 2)
  }

  /** The sizes that the formats of the binary log have. */
  lemma FormatsAre(f: Format)
    ensures ValidFormat(f) <==> f.commonLen >= 19 && (f.queryLen == 11 || f.queryLen >= 13)
  {
  }

  datatype Found = NotRewritable | TooShort | At(place: Place)

  function QueryPlace(f: Format, buf: seq<byte>): Found
    requires ValidFormat(f)
  {
    if |buf| < f.commonLen + f.queryLen then TooShort
    else
      var vars := if f.queryLen > QUERY_HEADER_MINIMAL_LEN
                  then buf[f.commonLen + Q_STATUS_VARS_LEN_OFFSET] + 256 * (buf[f.commonLen + Q_STATUS_VARS_LEN_OFFSET + 1] as int)
                  else 0;
      var extra := if buf[EVENT_TYPE_OFFSET] == EXECUTE_LOAD_QUERY_EVENT then EXECUTE_LOAD_QUERY_EXTRA_HEADER_LEN else 0;
      At(Place(f.commonLen + f.queryLen + vars + extra, f.commonLen + Q_DB_LEN_OFFSET))
  }

  /** Where `rewrite_db_filter` looks for the name. */
  function FindPlace(f: Format, buf: seq<byte>): Found
    requires ValidFormat(f) && |buf| > EVENT_TYPE_OFFSET
  {
    var kind := buf[EVENT_TYPE_OFFSET];
    if kind == TABLE_MAP_EVENT then At(Place(f.commonLen + f.tableMapLen + 1, f.commonLen + f.tableMapLen))
    else if kind == QUERY_EVENT || kind == EXECUTE_LOAD_QUERY_EVENT then QueryPlace(f, buf)
    else NotRewritable
  }

  /** A complete event: the name it announces lies inside it. */
  predicate Complete(f: Format, buf: seq<byte>) {
    && ValidFormat(f) && |buf| > EVENT_TYPE_OFFSET
    && (FindPlace(f, buf).At? ==> Inside(buf, FindPlace(f, buf).place))
  }

  /** `rewrite_db_filter`; None is its error return. */
  function Filter(f: Format, rewrites: Rewrites, buf: seq<byte>): Option<seq<byte>>
    requires Complete(f, buf)
  {
    if rewrites == map[] then Some(buf)
    else
      match FindPlace(f, buf)
      case NotRewritable => Some(buf)
      case TooShort => None
      case At(p) =>
        var name := NameAt(buf, p);
        Some(if name in rewrites then Rewritten(buf, p, rewrites[name]) else buf)
  }

  /** Rewriting moves nothing that decides where the name is. */
  lemma SamePlace(f: Format, buf: seq<byte>, name: seq<byte>)
    requires Complete(f, buf) && FindPlace(f, buf).At?
    ensures var r := Rewritten(buf, FindPlace(f, buf).place, name);
            |r| > EVENT_TYPE_OFFSET && FindPlace(f, r) == FindPlace(f, buf) && (|name| < 256 ==> (Complete(f, r) <==> |name| < 128))
  {
    hide Rewritten;
    var p := FindPlace(f, buf).place;
    RewrittenBytes(buf, p, name);
    if |name| < 256 { RewrittenParses(buf, p, name); }
    var r := Rewritten(buf, p, name);
    assert r[EVENT_TYPE_OFFSET] == buf[EVENT_TYPE_OFFSET];
    if buf[EVENT_TYPE_OFFSET] != TABLE_MAP_EVENT {
      assert |r| >= f.commonLen + f.queryLen;
      if f.queryLen > QUERY_HEADER_MINIMAL_LEN {
        StatusVarsKept(f, buf, p, name);
      }
    }
  }

  lemma StatusVarsKept(f: Format, buf: seq<byte>, p: Place, name: seq<byte>)
    requires ValidFormat(f) && Inside(buf, p)
    requires p.len == f.commonLen + Q_DB_LEN_OFFSET && p.db >= f.commonLen + Q_STATUS_VARS_LEN_OFFSET + 2
    ensures var r := Rewritten(buf, p, name);
            var at := f.commonLen + Q_STATUS_VARS_LEN_OFFSET;
            r[at] == buf[at] && r[at + 1] == buf[at + 1]
  {
    RewrittenBytes(buf, p, name);
  }

  /**
   Filtering an event and then filtering it with the rule turned round gives back
   the original bytes, for every kind of event.
   */
  lemma FilterBack(f: Format, buf: seq<byte>, was: seq<byte>, name: seq<byte>)
    requires Complete(f, buf) && FindPlace(f, buf).At? && NameAt(buf, FindPlace(f, buf).place) == was
    requires |name| < 128 && |was| < 128
    requires buf[EVENT_LEN_OFFSET..EVENT_LEN_OFFSET + 4] == Le4(|buf|)
    ensures var r := Filter(f, map[was := name], buf);
            && r.Some? && Complete(f, r.value)
            && Filter(f, map[name := was], r.value) == Some(buf)
  {
    var p := FindPlace(f, buf).place;
    SamePlace(f, buf, name);
    RewrittenParses(buf, p, name);
    RewriteBack(buf, p, name);
    assert was in map[was := name] && name in map[name := was];
  }

  // ----- the buffer as it is written ---------------------------------------------------------------

  /** `memmove` */
  method MemMove(a: array<byte>, to: nat, from: nat, n: nat)
    requires from + n <= a.Length && to + n <= a.Length
    modifies a
    ensures a[..] == StoreAt(old(a[..]), to, old(a[from..from + n]))
  {
    forall k | 0 <= k < n {
      a[to + k] := a[from + k];
    }
  }

  /** `memcpy` into the buffer */
  method MemCopy(a: array<byte>, to: nat, bytes: seq<byte>)
    requires to + |bytes| <= a.Length
    modifies a
    ensures a[..] == StoreAt(old(a[..]), to, bytes)
  {
    forall k | 0 <= k < |bytes| {
      a[to + k] := bytes[k];
    }
  }

  /** `my_realloc` of the first `size` bytes to a larger size */
  method Realloc(a: array<byte>, size: nat, newSize: nat) returns (b: array<byte>)
    requires size <= a.Length && size <= newSize
    ensures fresh(b) && b.Length == newSize && b[..size] == a[..size]
  {
    b := new byte[newSize](i requires 0 <= i reads a => if i < a.Length then a[i] else 0);
  }

  method MoveTail(r: array<byte>, size: nat, db: nat, oldLen: nat, newLen: nat)
    requires size <= r.Length && db + oldLen <= size && size - oldLen + newLen <= r.Length
    modifies r
    ensures r[..db] == old(r[..db])
    ensures r[db + newLen..size - oldLen + newLen] == old(r[db + oldLen..size])
  {
    if newLen != oldLen {
      MemMove(r, db + newLen, db + oldLen, size - (db + oldLen));
    }
  }

  method SpliceName(r: array<byte>, size: nat, db: nat, oldLen: nat, name: seq<byte>)
    requires size <= r.Length && db + oldLen <= size && size - oldLen + |name| <= r.Length
    modifies r
    ensures r[..size - oldLen + |name|] == old(r[..size])[..db] + name + old(r[..size])[db + oldLen..]
  {
    ghost var was := r[..size];
    assert r[db + oldLen..size] == was[db + oldLen..] && r[..db] == was[..db];
    MoveTail(r, size, db, oldLen, |name|);
    ghost var moved := r[..];
    assert moved[..db] == was[..db] && moved[db + |name|..size - oldLen + |name|] == was[db + oldLen..];
    MemCopy(r, db, name);
    assert r[..size - oldLen + |name|] == moved[..db] + name + moved[db + |name|..size - oldLen + |name|];
  }

  method StoreLengths(r: array<byte>, newSize: nat, len: nat, nameLen: byte)
    requires EVENT_LEN_OFFSET + 4 <= len < newSize <= r.Length
    modifies r
    ensures r[..newSize] == StoreAt(old(r[..newSize])[len := nameLen], EVENT_LEN_OFFSET, Le4(newSize))
  {
    r[len] := nameLen;
    assert r[..newSize] == old(r[..newSize])[len := nameLen];
    MemCopy(r, EVENT_LEN_OFFSET, Le4(newSize));
  }

  method ReplaceName(r: array<byte>, size: nat, p: Place, name: seq<byte>)
    requires size <= r.Length && Inside(r[..size], p)
    requires size - r[p.len] + |name| <= r.Length
    modifies r
    ensures r[..size - old(r[p.len]) + |name|] == Rewritten(old(r[..size]), p, name)
  {
    hide LengthByte, Le4, StoreAt;
    var newSize := size - r[p.len] + |name|;
    SpliceName(r, size, p.db, r[p.len], name);
    StoreLengths(r, newSize, p.len, LengthByte(|name|));
  }

  /** `rewrite_db` on the event buffer, which grows when the new name is longer. */
  method RewriteInBuffer(buf: array<byte>, size: nat, p: Place, rewrites: Rewrites) returns (r: array<byte>, newSize: nat)
    requires size <= buf.Length && Inside(buf[..size], p)
    modifies buf
    ensures newSize <= r.Length && (r == buf || fresh(r))
    ensures r[..newSize] == var name := NameAt(old(buf[..size]), p);
                            if name in rewrites then Rewritten(old(buf[..size]), p, rewrites[name]) else old(buf[..size])
  {
    var oldLen := buf[p.len];
    var name := buf[p.db..p.db + oldLen];
    assert name == NameAt(buf[..size], p);
    r, newSize := buf, size;
    if name in rewrites {
      var newName := rewrites[name];
      newSize := size - oldLen + |newName|;
      if |newName| > oldLen {
        r := Realloc(buf, size, newSize);
      }
      ReplaceName(r, size, p, newName);
    }
  }
}
