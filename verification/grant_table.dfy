/**
  tests/xen/test_hvmloader_grant-table.py: the check that the Xen platform PCI
  device's I/O memory lies inside an uncachable MTRR range, and the parse of that
  device's address from its sysfs `resource` file.  MTRR lines arrive already
  matched by the test's regular expression: base (hexadecimal), size in MiB and
  cache mode.
*/
module GrantTable {
  import opened Wrappers
  import Text

  const MiB: nat := 1024 * 1024

  /** One `/proc/mtrr` line: `regN: base=0x..., size=...MB, count=...: <mode>`. */
  datatype MtrrRange = MtrrRange(base: nat, sizeMb: int, mode: string)

  /** `addr` lies in `r`'s half-open interval and `r` is uncachable. */
  predicate Covers(r: MtrrRange, addr: int)
  {
    r.mode == "uncachable" && r.base <= addr < r.base + r.sizeMb * MiB
  }

  /** `are_grant_tables_inside_uncachable_mapping`: scan the ranges in order, stop at the first that covers `addr`. */
  function InsideUncachable(ranges: seq<MtrrRange>, addr: int): (r: bool)
    ensures r <==> exists i :: 0 <= i < |ranges| && Covers(ranges[i], addr)
  {
    if ranges == [] then false
    else if addr >= ranges[0].base && addr < ranges[0].base + ranges[0].sizeMb * MiB && ranges[0].mode == "uncachable"
    then true
    else
      assert forall i :: 1 <= i < |ranges| ==> ranges[i] == ranges[1..][i - 1];
      InsideUncachable(ranges[1..], addr)
  }

  /** Only uncachable ranges of positive size can make the check true; the end of a range is outside it. */
  lemma {:induction false} OnlyPositiveUncachable(ranges: seq<MtrrRange>, addr: int)
    requires forall i :: 0 <= i < |ranges| ==>
               ranges[i].mode != "uncachable" || ranges[i].sizeMb <= 0 || addr == ranges[i].base + ranges[i].sizeMb * MiB
    ensures !InsideUncachable(ranges, addr)
  {
  }

  /** The result depends only on the set of ranges: adding a range can only turn false into true. */
  lemma MoreRangesMonotone(ranges: seq<MtrrRange>, extra: seq<MtrrRange>, addr: int)
    requires InsideUncachable(ranges, addr)
    ensures InsideUncachable(ranges + extra, addr) && InsideUncachable(extra + ranges, addr)
  {
    var i :| 0 <= i < |ranges| && Covers(ranges[i], addr);
    assert (ranges + extra)[i] == ranges[i];
    assert (extra + ranges)[|extra| + i] == ranges[i];
  }

  /**
    `xen_platform_pci_io_address`: the first word of the second line of the
    `resource` file, read as hexadecimal.  Too few lines or an empty second line
    raise IndexError; a word that is not hexadecimal raises ValueError.
  */
  function PciIoAddress(resource: string): (r: Result<int>)
    ensures r.Ok? ==> |Text.SplitLines(resource)| >= 2 && Text.Words(Text.SplitLines(resource)[1]) != []
                      && Text.ParseInt(Text.Words(Text.SplitLines(resource)[1])[0], 16) == Some(r.value)
    ensures r.Err? <==> |Text.SplitLines(resource)| < 2 || Text.Words(Text.SplitLines(resource)[1]) == []
                        || Text.ParseInt(Text.Words(Text.SplitLines(resource)[1])[0], 16).None?
    ensures r.Err? ==> (r.msg == "IndexError: list index out of range"
                        <==> |Text.SplitLines(resource)| < 2 || Text.Words(Text.SplitLines(resource)[1]) == [])
  {
    var lines := Text.SplitLines(resource);
    if |lines| < 2 then Err("IndexError: list index out of range")
    else
      var words := Text.Words(lines[1]);
      if words == [] then Err("IndexError: list index out of range")
      else match Text.ParseInt(words[0], 16)
        case None => Err("ValueError: invalid literal for int() with base 16: " + Text.Repr(words[0]))
        case Some(v) => Ok(v)
  }

  /** A resource file whose second line starts with "0x<hex>" and another word yields that address. */
  lemma PciIoAddressOfResource(first: string, addr: nat, rest: string, tail: seq<string>)
    requires forall c :: c in first ==> c !in Text.LineBreaks
    requires rest != [] && forall c :: c in rest ==> c !in Text.Whitespace
    requires forall i :: 0 <= i < |tail| ==> forall c :: c in tail[i] ==> c !in Text.LineBreaks
    ensures PciIoAddress(Text.Unlines([first, "0x" + Text.ToDigits(addr, 16) + " " + rest] + tail)) == Ok(addr)
  {
    var word := "0x" + Text.ToDigits(addr, 16);
    var second := word + " " + rest;
    var lines := [first, second] + tail;
    HexWordPlain(addr);
    NoBreaksInWords(word, rest);
    forall i | 0 <= i < |lines| ensures forall c :: c in lines[i] ==> c !in Text.LineBreaks {
      if i > 1 {
        assert lines[i] == tail[i - 2];
      }
    }
    Text.SplitLinesOfLines(lines);
    assert Text.SplitLines(Text.Unlines(lines))[1] == second;
    Text.WordsOfTwo(word, rest);
    Text.HexRoundTrip(addr);
  }

  /** "0x" followed by hexadecimal digits holds no whitespace. */
  lemma HexWordPlain(addr: nat)
    ensures forall c :: c in "0x" + Text.ToDigits(addr, 16) ==> c !in Text.Whitespace
  {
    var ds := Text.ToDigits(addr, 16);
    forall c | c in "0x" + ds ensures c !in Text.Whitespace {
      if c in ds {
        var k :| 0 <= k < |ds| && ds[k] == c;
        assert Text.IsDigitIn(ds[k], 16);
      }
    }
  }

  /** Two whitespace-free words joined by a space hold no line break. */
  lemma NoBreaksInWords(a: string, b: string)
    requires forall c :: c in a ==> c !in Text.Whitespace
    requires forall c :: c in b ==> c !in Text.Whitespace
    ensures forall c :: c in a + " " + b ==> c !in Text.LineBreaks
  {
    assert Text.LineBreaks <= Text.Whitespace;
  }
}
