/**
  The byte-level layer of lib/efi.py: `struct.pack` with the little-endian
  prefix ('<'), for the four field kinds the UEFI structures use, GUIDs in
  their mixed-endian byte form, and UTF-16LE encoding of variable names.
*/
module EfiBytes {
  import opened Wrappers
  import Text

  type Byte = b: int | 0 <= b < 256
  type Bytes = seq<Byte>

  function Pow256(w: nat): (p: nat)
    ensures p >= 1
  {
    if w == 0 then 1 else 256 * Pow256(w - 1)
  }

  /** `n` as `w` little-endian bytes, modulo 256^w. */
  function LE(n: nat, w: nat): (r: Bytes)
    ensures |r| == w
  {
    if w == 0 then [] else [n % 256] + LE(n / 256, w - 1)
  }

  /** The number that little-endian bytes stand for. */
  function FromLE(bs: Bytes): (n: nat)
    ensures n < Pow256(|bs|)
  {
    if bs == [] then 0 else bs[0] + 256 * FromLE(bs[1..])
  }

  /** Encoding and decoding are inverse on the numbers that fit. */
  lemma {:induction false} LERoundTrip(n: nat, w: nat)
    requires n < Pow256(w)
    ensures FromLE(LE(n, w)) == n
  {
    if w > 0 {
      LERoundTrip(n / 256, w - 1);
      assert LE(n, w)[1..] == LE(n / 256, w - 1);
    }
  }

  /** Decoding then re-encoding at the same width gives the bytes back. */
  lemma {:induction false} FromLERoundTrip(bs: Bytes)
    ensures LE(FromLE(bs), |bs|) == bs
  {
    if bs != [] {
      FromLERoundTrip(bs[1..]);
      var n := FromLE(bs);
      assert n % 256 == bs[0] && n / 256 == FromLE(bs[1..]);
      assert bs == [bs[0]] + bs[1..];
    }
  }

  /** Decoding is injective on byte strings of one width. */
  lemma {:induction false} FromLEInjective(a: Bytes, b: Bytes)
    requires |a| == |b| && FromLE(a) == FromLE(b)
    ensures a == b
  {
    if a != [] {
      assert a[0] == FromLE(a) % 256 && b[0] == FromLE(b) % 256;
      FromLEInjective(a[1..], b[1..]);
      assert a == [a[0]] + a[1..] && b == [b[0]] + b[1..];
    }
  }

  // ---------------------------------------------------------------- struct.pack('<' + fmt, ...)

  /** The struct codes lib/efi.py uses: 'B', 'H', 'I' and '16s'. */
  datatype Kind = U8 | U16 | U32 | Bytes16

  /** A value handed to `struct.pack`: an int or a bytes object. */
  datatype Value = Int(i: int) | Raw(b: Bytes)

  function Width(k: Kind): nat
  {
    match k
    case U8 => 1
    case U16 => 2
    case U32 => 4
    case Bytes16 => 16
  }

  /** The size of a packed structure: with '<' there is no padding. */
  function Size(fmt: seq<Kind>): nat
  {
    if fmt == [] then 0 else Width(fmt[0]) + Size(fmt[1..])
  }

  /** A value `struct.pack` accepts for the code: an int in range, or bytes for '16s'. */
  predicate Fits(k: Kind, v: Value)
  {
    if k.Bytes16? then v.Raw? else v.Int? && 0 <= v.i < Pow256(Width(k))
  }

  /** One packed field; '16s' pads a shorter bytes object with zeros and cuts a longer one. */
  function Field(k: Kind, v: Value): (r: Bytes)
    requires Fits(k, v)
    ensures |r| == Width(k)
  {
    if k.Bytes16? then
      if |v.b| >= 16 then v.b[..16] else v.b + seq(16 - |v.b|, _ => 0)
    else LE(v.i, Width(k))
  }

  /** The struct.error `struct.pack` raises for a value that does not fit its code. */
  function FieldError(k: Kind, v: Value): string
  {
    if k.Bytes16? then "struct.error: argument for 's' must be a bytes object"
    else if v.Raw? then "struct.error: required argument is not an integer"
    else if k.U8? then "struct.error: ubyte format requires 0 <= number <= 255"
    else "struct.error: argument out of range"
  }

  /** The struct.error `struct.pack` raises for a wrong number of values. */
  function CountError(expected: nat, got: nat): string
  {
    "struct.error: pack expected " + Text.IntToString(expected) + " items for packing (got "
    + Text.IntToString(got) + ")"
  }

  /** `efi_pack(fmt, *args)`: struct.error unless there is one fitting value per code. */
  function EfiPack(fmt: seq<Kind>, args: seq<Value>): (r: Result<Bytes>)
    decreases |fmt|
  {
    if |fmt| != |args| then Err(CountError(|fmt|, |args|))
    else if fmt == [] then Ok([])
    else if !Fits(fmt[0], args[0]) then Err(FieldError(fmt[0], args[0]))
    else
      match EfiPack(fmt[1..], args[1..])
      case Err(e) => Err(e)
      case Ok(rest) => Ok(Field(fmt[0], args[0]) + rest)
  }

  /** Packing succeeds iff there is one value per code and every value fits its code. */
  lemma {:induction false} EfiPackSucceeds(fmt: seq<Kind>, args: seq<Value>)
    ensures EfiPack(fmt, args).Ok? <==> |fmt| == |args| && forall i :: 0 <= i < |fmt| ==> Fits(fmt[i], args[i])
    decreases |fmt|
  {
    if |fmt| == |args| && fmt != [] {
      EfiPackSucceeds(fmt[1..], args[1..]);
      assert forall i :: 1 <= i < |fmt| ==> fmt[1..][i - 1] == fmt[i] && args[1..][i - 1] == args[i];
    }
  }

  /** A packed structure is as long as its codes' widths add up to. */
  lemma {:induction false} EfiPackSize(fmt: seq<Kind>, args: seq<Value>)
    requires EfiPack(fmt, args).Ok?
    ensures |EfiPack(fmt, args).value| == Size(fmt)
    decreases |fmt|
  {
    if fmt != [] {
      EfiPackSize(fmt[1..], args[1..]);
    }
  }

  /** Packing one more leading field puts its bytes in front. */
  lemma EfiPackCons(k: Kind, v: Value, fmt: seq<Kind>, args: seq<Value>)
    requires Fits(k, v) && EfiPack(fmt, args).Ok?
    ensures EfiPack([k] + fmt, [v] + args) == Ok(Field(k, v) + EfiPack(fmt, args).value)
  {
    assert ([k] + fmt)[1..] == fmt && ([v] + args)[1..] == args;
  }

  /** A one-field structure is that field. */
  lemma EfiPackOne(k: Kind, v: Value)
    requires Fits(k, v)
    ensures EfiPack([k], [v]) == Ok(Field(k, v))
  {
    assert EfiPack([], []) == Ok([]);
    EfiPackCons(k, v, [], []);
    assert [k] + [] == [k] && [v] + [] == [v] && Field(k, v) + [] == Field(k, v);
  }

  /** A non-empty structure packs as its first field followed by the rest. */
  lemma EfiPackUnfold(fmt: seq<Kind>, args: seq<Value>)
    requires fmt != [] && EfiPack(fmt, args).Ok?
    ensures |fmt| == |args| && Fits(fmt[0], args[0]) && EfiPack(fmt[1..], args[1..]).Ok?
    ensures EfiPack(fmt, args).value == Field(fmt[0], args[0]) + EfiPack(fmt[1..], args[1..]).value
  {
  }

  lemma EfiPackFold(fmt: seq<Kind>, args: seq<Value>)
    requires fmt != [] && |fmt| == |args| && Fits(fmt[0], args[0]) && EfiPack(fmt[1..], args[1..]).Ok?
    ensures EfiPack(fmt, args) == Ok(Field(fmt[0], args[0]) + EfiPack(fmt[1..], args[1..]).value)
  {
  }

  lemma AppendAssoc(h: Bytes, x: Bytes, y: Bytes)
    ensures h + (x + y) == (h + x) + y
  {
  }

  lemma AppendHead<T>(x: seq<T>, y: seq<T>)
    requires x != []
    ensures (x + y)[0] == x[0] && (x + y)[1..] == x[1..] + y
  {
  }

  lemma AppendNil<T>(x: seq<T>)
    ensures [] + x == x
  {
  }

  /** Packing two structures one after the other packs their concatenation. */
  lemma {:induction false} EfiPackAppend(f1: seq<Kind>, a1: seq<Value>, f2: seq<Kind>, a2: seq<Value>)
    requires EfiPack(f1, a1).Ok? && EfiPack(f2, a2).Ok?
    ensures EfiPack(f1 + f2, a1 + a2) == Ok(EfiPack(f1, a1).value + EfiPack(f2, a2).value)
    decreases |f1|
  {
    if f1 == [] {
      assert a1 == [];
      AppendNil(f2);
      AppendNil(a2);
      AppendNil(EfiPack(f2, a2).value);
    } else {
      EfiPackUnfold(f1, a1);
      EfiPackAppend(f1[1..], a1[1..], f2, a2);
      AppendHead(f1, f2);
      AppendHead(a1, a2);
      assert |f2| == |a2|;
      EfiPackFold(f1 + f2, a1 + a2);
      AppendAssoc(Field(f1[0], a1[0]), EfiPack(f1[1..], a1[1..]).value, EfiPack(f2, a2).value);
    }
  }

  /** Packing one more trailing field appends its bytes. */
  lemma EfiPackSnoc(fmt: seq<Kind>, args: seq<Value>, k: Kind, v: Value)
    requires EfiPack(fmt, args).Ok? && Fits(k, v)
    ensures EfiPack(fmt + [k], args + [v]) == Ok(EfiPack(fmt, args).value + Field(k, v))
  {
    EfiPackOne(k, v);
    EfiPackAppend(fmt, args, [k], [v]);
  }

  /** The size of a structure with one more trailing field. */
  lemma {:induction false} SizeSnoc(fmt: seq<Kind>, k: Kind)
    ensures Size(fmt + [k]) == Size(fmt) + Width(k)
    decreases |fmt|
  {
    if fmt == [] {
      assert fmt + [k] == [k] && [k][1..] == [];
    } else {
      SizeSnoc(fmt[1..], k);
      assert (fmt + [k])[1..] == fmt[1..] + [k];
    }
  }

  lemma TakeNone<T>(x: seq<T>)
    ensures x[..0] == []
  {
  }

  lemma DropIndex<T>(x: seq<T>, k: nat)
    requires 0 < k < |x|
    ensures x[1..][k - 1] == x[k]
  {
  }

  lemma PrefixOfConcat(x: Bytes, y: Bytes)
    ensures (x + y)[0..|x|] == x
  {
  }

  /** A slice of the second part of a concatenation. */
  lemma SliceOfConcat(x: Bytes, y: Bytes, i: nat, j: nat)
    requires i <= j <= |y|
    ensures (x + y)[|x| + i..|x| + j] == y[i..j]
  {
  }

  /** A prefix of a concatenation that takes all of the first part. */
  lemma TakeOfConcat(x: Bytes, y: Bytes, n: nat)
    requires n <= |y|
    ensures (x + y)[..|x| + n] == x + y[..n]
  {
  }

  lemma SizePrefix(fmt: seq<Kind>, k: nat)
    requires 0 < k <= |fmt|
    ensures Size(fmt[..k]) == Width(fmt[0]) + Size(fmt[1..][..k - 1])
  {
    assert fmt[..k][0] == fmt[0];
    assert fmt[..k][1..] == fmt[1..][..k - 1];
  }

  lemma {:induction false} SizeBound(fmt: seq<Kind>, k: nat)
    requires k < |fmt|
    ensures Size(fmt[..k]) + Width(fmt[k]) <= Size(fmt)
    decreases k
  {
    if k > 0 {
      SizeBound(fmt[1..], k - 1);
      SizePrefix(fmt, k);
      DropIndex(fmt, k);
    } else {
      TakeNone(fmt);
    }
  }

  /** Field `k` of a packed structure sits at the total width of the fields before it. */
  lemma {:induction false} EfiPackField(fmt: seq<Kind>, args: seq<Value>, k: nat)
    requires EfiPack(fmt, args).Ok? && k < |fmt|
    ensures |EfiPack(fmt, args).value| == Size(fmt) && Size(fmt[..k]) + Width(fmt[k]) <= Size(fmt)
    ensures Fits(fmt[k], args[k])
    ensures EfiPack(fmt, args).value[Size(fmt[..k])..Size(fmt[..k]) + Width(fmt[k])] == Field(fmt[k], args[k])
    decreases k
  {
    EfiPackSize(fmt, args);
    SizeBound(fmt, k);
    EfiPackUnfold(fmt, args);
    var head := Field(fmt[0], args[0]);
    var rest := EfiPack(fmt[1..], args[1..]).value;
    if k == 0 {
      TakeNone(fmt);
      PrefixOfConcat(head, rest);
    } else {
      EfiPackField(fmt[1..], args[1..], k - 1);
      SizePrefix(fmt, k);
      DropIndex(fmt, k);
      DropIndex(args, k);
      var off := Size(fmt[1..][..k - 1]);
      SliceOfConcat(head, rest, off, off + Width(fmt[k]));
    }
  }

  /** A packed int field decodes to the value packed. */
  lemma EfiPackIntField(fmt: seq<Kind>, args: seq<Value>, k: nat)
    requires EfiPack(fmt, args).Ok? && k < |fmt| && !fmt[k].Bytes16?
    ensures |EfiPack(fmt, args).value| == Size(fmt) && Size(fmt[..k]) + Width(fmt[k]) <= Size(fmt)
    ensures args[k].Int?
    ensures FromLE(EfiPack(fmt, args).value[Size(fmt[..k])..Size(fmt[..k]) + Width(fmt[k])]) == args[k].i
  {
    EfiPackField(fmt, args, k);
    LERoundTrip(args[k].i, Width(fmt[k]));
  }

  // ---------------------------------------------------------------- GUIDs

  /** A GUID by its fields; `as_bytes` is Python's `UUID.bytes_le`. */
  datatype Guid = Guid(data1: nat, data2: nat, data3: nat, data4: Bytes)

  predicate WellFormed(g: Guid)
  {
    g.data1 < Pow256(4) && g.data2 < Pow256(2) && g.data3 < Pow256(2) && |g.data4| == 8
  }

  /** `GUID.as_bytes()`: the first three fields little-endian, then the last eight bytes as they are. */
  function AsBytes(g: Guid): (r: Bytes)
    ensures |r| == 8 + |g.data4|
  {
    LE(g.data1, 4) + LE(g.data2, 2) + LE(g.data3, 2) + g.data4
  }

  /** The 16-byte form determines a well-formed GUID. */
  lemma AsBytesInjective(a: Guid, b: Guid)
    requires WellFormed(a) && WellFormed(b) && AsBytes(a) == AsBytes(b)
    ensures a == b
  {
    var x, y := AsBytes(a), AsBytes(b);
    assert x[..4] == LE(a.data1, 4) && y[..4] == LE(b.data1, 4);
    assert x[4..6] == LE(a.data2, 2) && y[4..6] == LE(b.data2, 2);
    assert x[6..8] == LE(a.data3, 2) && y[6..8] == LE(b.data3, 2);
    assert x[8..] == a.data4 && y[8..] == b.data4;
    LERoundTrip(a.data1, 4);
    LERoundTrip(b.data1, 4);
    LERoundTrip(a.data2, 2);
    LERoundTrip(b.data2, 2);
    LERoundTrip(a.data3, 2);
    LERoundTrip(b.data3, 2);
  }

  /**
    `pack_guid(data1, data2, data3, data4)`: data1 as 4 bytes, data2 and data3 as 2
    bytes each, then `bytes(data4)`.  Native byte order is taken to be
    little-endian (x86).  Out-of-range fields raise struct.error, and elements of
    data4 outside 0..255 raise ValueError.
  */
  function PackGuid(data1: int, data2: int, data3: int, data4: seq<int>): (r: Result<Bytes>)
    ensures r.Ok? <==> 0 <= data1 < Pow256(4) && 0 <= data2 < Pow256(2) && 0 <= data3 < Pow256(2)
                       && forall i :: 0 <= i < |data4| ==> 0 <= data4[i] < 256
    ensures r.Ok? ==> |r.value| == 8 + |data4|
                      && FromLE(r.value[..4]) == data1 && FromLE(r.value[4..6]) == data2
                      && FromLE(r.value[6..8]) == data3 && r.value[8..] == data4
  {
    if !(0 <= data1 < Pow256(4) && 0 <= data2 < Pow256(2) && 0 <= data3 < Pow256(2)) then
      Err("struct.error: argument out of range")
    else if exists i :: 0 <= i < |data4| && !(0 <= data4[i] < 256) then
      Err("ValueError: bytes must be in range(0, 256)")
    else
      var tail: Bytes := seq(|data4|, i requires 0 <= i < |data4| => data4[i] as Byte);
      var r := LE(data1, 4) + LE(data2, 2) + LE(data3, 2) + tail;
      assert r[..4] == LE(data1, 4) && r[4..6] == LE(data2, 2) && r[6..8] == LE(data3, 2) && r[8..] == tail;
      LERoundTrip(data1, 4);
      LERoundTrip(data2, 2);
      LERoundTrip(data3, 2);
      Ok(r)
  }

  /** `pack_guid` of a GUID's fields is that GUID's `bytes_le`. */
  lemma PackGuidIsAsBytes(g: Guid)
    requires WellFormed(g)
    ensures PackGuid(g.data1, g.data2, g.data3, g.data4) == Ok(AsBytes(g))
  {
    var r := PackGuid(g.data1, g.data2, g.data3, g.data4).value;
    var x := AsBytes(g);
    assert x[..4] == LE(g.data1, 4) && x[4..6] == LE(g.data2, 2) && x[6..8] == LE(g.data3, 2) && x[8..] == g.data4;
    FromLEInjective(r[..4], x[..4]);
    FromLEInjective(r[4..6], x[4..6]);
    FromLEInjective(r[6..8], x[6..8]);
    LERoundTrip(g.data1, 4);
    LERoundTrip(g.data2, 2);
    LERoundTrip(g.data3, 2);
    assert r == r[..4] + r[4..6] + r[6..8] + r[8..];
    assert x == x[..4] + x[4..6] + x[6..8] + x[8..];
  }

  // ---------------------------------------------------------------- UTF-16LE

  /** `c.encode('utf-16-le')`: one 16-bit unit, or a surrogate pair above U+FFFF. */
  function Utf16Char(c: char): (r: Bytes)
    ensures |r| == 2 || |r| == 4
  {
    var n := c as int;
    if n < 0x1_0000 then LE(n, 2)
    else
      var m := n - 0x1_0000;
      LE(0xD800 + m / 0x400, 2) + LE(0xDC00 + m % 0x400, 2)
  }

  /** `s.encode('utf-16-le')`. */
  function Utf16Le(s: string): (r: Bytes)
    ensures |r| >= 2 * |s|
  {
    if s == [] then [] else Utf16Char(s[0]) + Utf16Le(s[1..])
  }

  /** An ASCII name encodes to two bytes per character: the code, then zero. */
  lemma {:induction false} Utf16Ascii(s: string)
    requires forall i :: 0 <= i < |s| ==> s[i] as int < 128
    ensures |Utf16Le(s)| == 2 * |s|
    ensures forall i :: 0 <= i < |s| ==> Utf16Le(s)[2 * i] == s[i] as int && Utf16Le(s)[2 * i + 1] == 0
  {
    if s != [] {
      Utf16Ascii(s[1..]);
      var n := s[0] as int;
      assert Utf16Char(s[0]) == LE(n, 2) == [n % 256] + LE(n / 256, 1);
      assert LE(n / 256, 1) == [0] + LE(0, 0);
      forall i | 1 <= i < |s| ensures Utf16Le(s)[2 * i] == s[i] as int && Utf16Le(s)[2 * i + 1] == 0 {
        assert s[1..][i - 1] == s[i];
        assert Utf16Le(s)[2 * i] == Utf16Le(s[1..])[2 * (i - 1)];
        assert Utf16Le(s)[2 * i + 1] == Utf16Le(s[1..])[2 * (i - 1) + 1];
      }
    }
  }
}
