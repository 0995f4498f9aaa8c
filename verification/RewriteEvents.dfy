/**
 The events whose database name is rewritten, written out field by field as their
 layout says.  Rewriting the bytes is the same as changing the one field.
 */
module RewriteEvents {
  import opened Bytes
  import opened Wrappers
  import opened RewriteDb

  /** The fields in their order; `load` is the further header of an execute-load-query event. */
  datatype Event =
    | Query(timestamp: seq<byte>, server: seq<byte>, more: seq<byte>, ids: seq<byte>, error: seq<byte>, post: seq<byte>,
            load: Option<seq<byte>>, vars: seq<byte>, db: seq<byte>, rest: seq<byte>)
    | TableMap(timestamp: seq<byte>, server: seq<byte>, more: seq<byte>, post: seq<byte>, db: seq<byte>, rest: seq<byte>)

  /** The fields have the sizes that the format description announces. */
  predicate WellSized(f: Format, ev: Event) {
    && |ev.timestamp| == 4 && |ev.server| == 4 && 13 + |ev.more| == f.commonLen && |ev.db| < 128
    && match ev
       case Query(_, _, _, ids, error, post, load, vars, _, _) =>
         && |ids| == 8 && |error| == 2 && |vars| < 0x10000 && (load.Some? ==> |load.value| == 13)
         && (if f.queryLen == 11 then post == [] && vars == [] else f.queryLen == 13 + |post|)
       case TableMap(_, _, _, post, _, _) => |post| == f.tableMapLen
  }

  function TypeOf(ev: Event): byte {
    match ev
    case Query(_, _, _, _, _, _, load, _, _, _) => if load.Some? then 18 else 2
    case TableMap(_, _, _, _, _, _) => 19
  }

  function Le2(n: nat): seq<byte> {
    [n % 256, n / 256 % 256]
  }

  /** Up to the event length in the header. */
  function First(ev: Event): (r: seq<byte>)
    ensures |ev.timestamp| == 4 && |ev.server| == 4 ==> |r| == 9 && r[4] == TypeOf(ev)
  {
    ev.timestamp + [TypeOf(ev)] + ev.server
  }

  /** Between the event length and the length of the name. */
  function Second(ev: Event): seq<byte> {
    match ev
    case Query(_, _, more, ids, _, _, _, _, _, _) => more + ids
    case TableMap(_, _, more, post, _, _) => more + post
  }

  /** Between the length of the name and the name. */
  function Third(f: Format, ev: Event): seq<byte> {
    match ev
    case Query(_, _, _, _, error, post, load, vars, _, _) =>
      error + (if f.queryLen == 11 then [] else Le2(|vars|) + post)
      + (if load.Some? then load.value else []) + vars
    case TableMap(_, _, _, _, _, _) => []
  }

  function Assembled(a: seq<byte>, b: seq<byte>, c: seq<byte>, db: seq<byte>, rest: seq<byte>): seq<byte>
    requires |db| < 256
  {
    a + Le4(|a| + 4 + |b| + 1 + |c| + |db| + |rest|) + b + [|db|] + c + db + rest
  }

  /** The bytes of the event. */
  function Layout(f: Format, ev: Event): seq<byte>
    requires |ev.db| < 256
  {
    Assembled(First(ev), Second(ev), Third(f, ev), ev.db, ev.rest)
  }

  function PlaceIn(a: seq<byte>, b: seq<byte>, c: seq<byte>): Place {
    Place(|a| + 4 + |b| + 1 + |c|, |a| + 4 + |b|)
  }

  /** Where everything is in assembled bytes. */
  lemma AssembledParts(a: seq<byte>, b: seq<byte>, c: seq<byte>, db: seq<byte>, rest: seq<byte>)
    requires |a| == 9 && |db| < 128
    ensures var buf, p := Assembled(a, b, c, db, rest), PlaceIn(a, b, c);
            && buf[..9] == a && buf[9..13] == Le4(|buf|) && buf[13..p.len] == b
            && p.db <= |buf| && buf[p.len] == |db| && buf[p.len + 1..p.db] == c
            && buf[p.db..] == db + rest
            && Inside(buf, p) && NameAt(buf, p) == db
  {
    hide Le4;
    var buf, p := Assembled(a, b, c, db, rest), PlaceIn(a, b, c);
    assert buf[p.db..] == db + rest;
    assert buf[p.db..p.db + |db|] == buf[p.db..][..|db|];
  }

  lemma ByteReplaced(x: seq<byte>, n: byte, y: seq<byte>, m: byte)
    ensures (x + [n] + y)[|x| := m] == x + [m] + y
  {
  }

  lemma LengthReplaced(a: seq<byte>, l: seq<byte>, y: seq<byte>, m: seq<byte>)
    requires |l| == |m|
    ensures StoreAt(a + l + y, |a|, m) == a + m + y
  {
    assert (a + l + y)[..|a|] == a && (a + l + y)[|a| + |l|..] == y;
  }

  lemma Grouped(a: seq<byte>, l: seq<byte>, b: seq<byte>, n: byte, c: seq<byte>, db: seq<byte>, rest: seq<byte>)
    ensures a + l + b + [n] + c + db + rest == a + l + b + [n] + (c + db + rest)
    ensures a + l + b + [n] + c + db + rest == a + l + (b + [n] + c + db + rest)
  {
  }

  /** Rewriting assembled bytes is assembling with the new name. */
  lemma RewrittenIsAssembled(a: seq<byte>, b: seq<byte>, c: seq<byte>, db: seq<byte>, rest: seq<byte>, name: seq<byte>)
    requires |a| == 9 && |db| < 128 && |name| < 256
    ensures Inside(Assembled(a, b, c, db, rest), PlaceIn(a, b, c))
    ensures Rewritten(Assembled(a, b, c, db, rest), PlaceIn(a, b, c), name) == Assembled(a, b, c, name, rest)
  {
    hide Le4, StoreAt;
    var buf, p := Assembled(a, b, c, db, rest), PlaceIn(a, b, c);
    AssembledParts(a, b, c, db, rest);
    var l, moved := Le4(|buf|), buf[..p.db] + name + buf[p.db + |db|..];
    assert moved == a + l + b + [|db|] + c + name + rest by {
      assert buf[p.db + |db|..] == buf[p.db..][|db|..] == rest;
      assert buf[..p.db] == a + l + b + [|db|] + c;
    }
    Grouped(a, l, b, |db|, c, name, rest);
    Grouped(a, l, b, |name|, c, name, rest);
    ByteReplaced(a + l + b, |db|, c + name + rest, |name|);
    LengthReplaced(a, l, b + [|name|] + c + name + rest, Le4(|moved|));
    Grouped(a, Le4(|moved|), b, |name|, c, name, rest);
  }

  lemma Le2RoundTrip(n: nat)
    requires n < 0x10000
    ensures Le2(n)[0] + 256 * (Le2(n)[1] as int) == n
  {
  }

  /** The search of the filter finds the field. */
  lemma FieldFound(f: Format, ev: Event)
    requires ValidFormat(f) && WellSized(f, ev)
    ensures var buf := Layout(f, ev); |buf| > EVENT_TYPE_OFFSET && FindPlace(f, buf) == At(PlaceIn(First(ev), Second(ev), Third(f, ev)))
  {
    hide Le4;
    var a, b, c := First(ev), Second(ev), Third(f, ev);
    var buf, p := Layout(f, ev), PlaceIn(a, b, c);
    AssembledParts(a, b, c, ev.db, ev.rest);
    assert buf[EVENT_TYPE_OFFSET] == buf[..9][EVENT_TYPE_OFFSET] == TypeOf(ev);
    if ev.Query? && f.queryLen != QUERY_HEADER_MINIMAL_LEN {
      var at := f.commonLen + Q_STATUS_VARS_LEN_OFFSET;
      Le2RoundTrip(|ev.vars|);
      assert buf[at] == buf[p.len + 1..p.db][2] == c[2] && buf[at + 1] == buf[p.len + 1..p.db][3] == c[3];
    }
  }

  /** Filtering the bytes of an event changes its database field as the rule says, and nothing else. */
  lemma FilterChangesField(f: Format, rewrites: Rewrites, ev: Event)
    requires ValidFormat(f) && WellSized(f, ev) && forall n | n in rewrites :: |rewrites[n]| < 256
    ensures Complete(f, Layout(f, ev))
    ensures Filter(f, rewrites, Layout(f, ev)) ==
            Some(Layout(f, if ev.db in rewrites then ev.(db := rewrites[ev.db]) else ev))
  {
    hide Le4, Rewritten, Assembled, FindPlace;
    var a, b, c := First(ev), Second(ev), Third(f, ev);
    FieldFound(f, ev);
    AssembledParts(a, b, c, ev.db, ev.rest);
    if ev.db in rewrites {
      RewrittenIsAssembled(a, b, c, ev.db, ev.rest, rewrites[ev.db]);
    }
  }
}
