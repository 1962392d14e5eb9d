/**
 * The pure and command-line parts of the front end (main.cpp): the
 * compile-time string hash `cexprHash`, the parsing of the command-line
 * arguments at the start of `main`, and the memory editor's highlight test.
 *
 * A C string is a sequence of non-zero `char` values; `char` is taken to be
 * signed (x86-64), so a byte above 0x7F is a negative value. The hash is a
 * `size_t`, i.e. arithmetic modulo 2^64.
 */
module Frontend {
  import opened Types
  import Timer

  type CChar = c: int | -128 <= c < 128 && c != 0 witness 1

  /** The characters of a C string, without its terminating 0. */
  type CString = seq<CChar>

  // ---------------------------------------------------------------------
  // cexprHash
  // ---------------------------------------------------------------------

  /**
   * cexprHash(str, v): `v` for the empty string, otherwise 31 times the hash
   * of the tail plus the first character. The recursive call passes no `v`,
   * so it restarts from the default 0: `v` only matters for the empty string.
   */
  function CexprHash(s: CString, v: u64): u64 {
    if |s| == 0 then v else Wrap64(31 * CexprHash(s[1..], 0) + s[0])
  }

  function Pow31(n: nat): (p: nat)
    ensures p >= 1
  {
    if n == 0 then 1 else 31 * Pow31(n - 1)
  }

  /** The polynomial the hash evaluates, over the integers: character k weighted by 31^k. */
  function Weighted(s: seq<int>): int {
    if |s| == 0 then 0 else Weighted(s[..|s| - 1]) + s[|s| - 1] * Pow31(|s| - 1)
  }

  /** Peeling the first character off the polynomial (Horner's rule). */
  lemma {:induction false} WeightedHorner(s: seq<int>)
    requires |s| > 0
    ensures Weighted(s) == s[0] + 31 * Weighted(s[1..])
  {
    var n := |s|;
    if n == 1 {
      assert s[..0] == [] && s[1..] == [];
    } else {
      var init := s[..n - 1];
      WeightedHorner(init);
      assert init[1..] == s[1..][..n - 2];
      assert init[0] == s[0] && s[1..][n - 2] == s[n - 1];
      var p := Pow31(n - 2);
      assert Pow31(n - 1) == 31 * p;
      calc {
        Weighted(s);
        Weighted(init) + s[n - 1] * (31 * p);
        s[0] + 31 * Weighted(init[1..]) + s[n - 1] * (31 * p);
        { assert s[n - 1] * (31 * p) == 31 * (s[n - 1] * p); }
        s[0] + 31 * (Weighted(s[1..][..n - 2]) + s[1..][n - 2] * p);
        s[0] + 31 * Weighted(s[1..]);
      }
    }
  }

  /** Reducing modulo 2^64 before the multiply-add does not change the result. */
  lemma WrapMulAdd(a: int, c: int)
    ensures Wrap64(31 * Wrap64(a) + c) == Wrap64(31 * a + c)
  {
    var q := a / TWO_64;
    assert a == q * TWO_64 + Wrap64(a);
    assert 31 * a + c == (31 * Wrap64(a) + c) + (31 * q) * TWO_64;
    ModMultiple(31 * Wrap64(a) + c, 31 * q);
  }

  lemma ModMultiple(x: int, k: int)
    ensures (x + k * TWO_64) % TWO_64 == x % TWO_64
  {
  }

  /** The hash of a non-empty string is the polynomial sum of its characters modulo 2^64. */
  lemma {:induction false} HashIsPolynomial(s: CString, v: u64)
    ensures |s| > 0 ==> CexprHash(s, v) == Wrap64(Weighted(s))
    ensures |s| == 0 ==> CexprHash(s, v) == v
  {
    if |s| > 0 {
      HashIsPolynomial(s[1..], 0);
      if |s| == 1 {
        assert s[1..] == [];
        assert Weighted(s) == s[0] by {
          assert s[..0] == [];
        }
      } else {
        WrapMulAdd(Weighted(s[1..]), s[0]);
      }
      WeightedHorner(s);
    }
  }

  /** The seed argument is ignored for every non-empty string. */
  lemma HashIgnoresSeed(s: CString, v: u64, w: u64)
    requires |s| > 0
    ensures CexprHash(s, v) == CexprHash(s, w)
  {
  }

  /**
   * Two strings that differ only in their first two characters collide when
   * those characters weigh the same: the hash cannot tell them apart.
   */
  lemma PrefixCollision(a: CChar, b: CChar, c: CChar, d: CChar, rest: CString)
    requires a + 31 * b == c + 31 * d
    ensures CexprHash([a, b] + rest, 0) == CexprHash([c, d] + rest, 0)
  {
    var h := CexprHash(rest, 0);
    assert ([a, b] + rest)[1..] == [b] + rest && ([b] + rest)[1..] == rest;
    assert ([c, d] + rest)[1..] == [d] + rest && ([d] + rest)[1..] == rest;
    WrapMulAdd(31 * h + b, a);
    WrapMulAdd(31 * h + d, c);
    assert 31 * (31 * h + b) + a == 31 * (31 * h + d) + c;
  }

  /** "--rom" */
  const RomFlag: CString := [45, 45, 114, 111, 109]

  /** "--bios" */
  const BiosFlag: CString := [45, 45, 98, 105, 111, 115]

  /** The case label `cexprHash("--rom")`, evaluated at compile time. */
  const RomHash: u64 := 104081584

  /** The case label `cexprHash("--bios")`, evaluated at compile time. */
  const BiosHash: u64 := 3398086869

  /** "L,rom": 'L' + 31 * ',' == '-' + 31 * '-' == 1440. */
  const RomAlias: CString := [76, 44, 114, 111, 109]

  /** One step of the hash, while no wrap-around occurs. */
  lemma HashStep(s: CString, h: nat)
    requires |s| > 0 && CexprHash(s[1..], 0) == h && 0 <= 31 * h + s[0] < TWO_64
    ensures CexprHash(s, 0) == 31 * h + s[0]
  {
  }

  /** The case labels are the hashes of the flags, and they are distinct. */
  lemma FlagHashes()
    ensures CexprHash(RomFlag, 0) == RomHash
    ensures CexprHash(BiosFlag, 0) == BiosHash
    ensures RomHash != BiosHash
  {
    var r := RomFlag;
    assert r[5..] == [];
    HashStep(r[4..], 0);
    HashStep(r[3..], 109);
    HashStep(r[2..], 3490);
    HashStep(r[1..], 108304);
    HashStep(r, 3357469);
    var b := BiosFlag;
    assert b[6..] == [];
    HashStep(b[5..], 0);
    HashStep(b[4..], 115);
    HashStep(b[3..], 3676);
    HashStep(b[2..], 114061);
    HashStep(b[1..], 3535989);
    HashStep(b, 109615704);
  }

  /** "L,rom" hashes like "--rom" although the strings differ. */
  lemma RomAliasCollides()
    ensures RomAlias != RomFlag
    ensures CexprHash(RomAlias, 0) == RomHash
  {
    assert RomAlias == [76, 44] + RomFlag[2..];
    assert RomFlag == [45, 45] + RomFlag[2..];
    PrefixCollision(76, 44, 45, 45, RomFlag[2..]);
    FlagHashes();
  }

  // ---------------------------------------------------------------------
  // Argument parsing
  // ---------------------------------------------------------------------

  /** The four globals the parser sets. */
  datatype Args = Args(romGiven: bool, romPath: CString, biosGiven: bool, biosPath: CString)

  /** Whether `main` goes on after parsing, or returns the exit code. */
  datatype Status = Continue | Exit(code: int)

  /**
   * The parse from position i on, as a function of argv (argv[0] is the
   * program name; argc is |argv|). A flag consumes the next argument as its
   * path; a flag with nothing after it, or an unrecognised argument anywhere
   * but position 1, ends the program with -1. Arguments are recognised by
   * hash, not by comparing strings.
   */
  function ParseFrom(argv: seq<CString>, i: nat, a: Args): (Status, Args)
    decreases |argv| - i
  {
    if i >= |argv| then (Continue, a)
    else
      var h := CexprHash(argv[i], 0);
      if h == RomHash then
        if i + 1 == |argv| then (Exit(-1), a)
        else ParseFrom(argv, i + 2, a.(romGiven := true, romPath := argv[i + 1]))
      else if h == BiosHash then
        if i + 1 == |argv| then (Exit(-1), a)
        else ParseFrom(argv, i + 2, a.(biosGiven := true, biosPath := argv[i + 1]))
      else if i == 1 then
        ParseFrom(argv, i + 1, a.(romGiven := true, romPath := argv[i]))
      else
        (Exit(-1), a)
  }

  /** The globals as `main` sets them before its loop; the ROM path keeps its earlier value. */
  function Initial(romPath: CString): Args {
    Args(false, romPath, false, [])
  }

  /** A flag that is the last argument ends the program with -1. */
  lemma FlagWithoutPath(argv: seq<CString>, i: nat, a: Args)
    requires 1 <= i && i + 1 == |argv|
    requires CexprHash(argv[i], 0) == RomHash || CexprHash(argv[i], 0) == BiosHash
    ensures ParseFrom(argv, i, a) == (Exit(-1), a)
  {
  }

  /** A flag with an argument after it takes that argument as its path, whatever it looks like. */
  lemma FlagTakesNext(argv: seq<CString>, i: nat, a: Args)
    requires 1 <= i && i + 1 < |argv|
    ensures CexprHash(argv[i], 0) == RomHash ==>
      ParseFrom(argv, i, a) == ParseFrom(argv, i + 2, a.(romGiven := true, romPath := argv[i + 1]))
    ensures CexprHash(argv[i], 0) == BiosHash ==>
      ParseFrom(argv, i, a) == ParseFrom(argv, i + 2, a.(biosGiven := true, biosPath := argv[i + 1]))
  {
  }

  /** An unrecognised argument is the ROM path at position 1 and an error anywhere later. */
  lemma UnknownArgument(argv: seq<CString>, i: nat, a: Args)
    requires 1 <= i < |argv|
    requires CexprHash(argv[i], 0) != RomHash
    requires CexprHash(argv[i], 0) != BiosHash
    ensures i == 1 ==> ParseFrom(argv, i, a) == ParseFrom(argv, 2, a.(romGiven := true, romPath := argv[1]))
    ensures i > 1 ==> ParseFrom(argv, i, a) == (Exit(-1), a)
  {
  }

  /**
   * Whatever the parse sets comes from the command line: a path that is set
   * is one of argv[i..], and a path that is not set keeps its earlier value.
   * The parse only ends with Continue or with -1.
   */
  lemma {:induction false} PathsFromCommandLine(argv: seq<CString>, i: nat, a: Args)
    requires i >= 1
    ensures var (status, r) := ParseFrom(argv, i, a);
      && (status == Continue || status == Exit(-1))
      && (a.romGiven ==> r.romGiven) && (a.biosGiven ==> r.biosGiven)
      && (r.romGiven ==> (a.romGiven && r.romPath == a.romPath) || exists k :: i <= k < |argv| && r.romPath == argv[k])
      && (!r.romGiven ==> r.romPath == a.romPath)
      && (r.biosGiven ==> (a.biosGiven && r.biosPath == a.biosPath) || exists k :: i <= k < |argv| && r.biosPath == argv[k])
      && (!r.biosGiven ==> r.biosPath == a.biosPath)
    decreases |argv| - i
  {
    if i < |argv| {
      var h := CexprHash(argv[i], 0);
      if h == RomHash || h == BiosHash {
        if i + 1 < |argv| {
          var b := if h == RomHash
            then a.(romGiven := true, romPath := argv[i + 1])
            else a.(biosGiven := true, biosPath := argv[i + 1]);
          PathsFromCommandLine(argv, i + 2, b);
        }
      } else if i == 1 {
        PathsFromCommandLine(argv, i + 1, a.(romGiven := true, romPath := argv[i]));
      }
    }
  }

  /** The ROM path alone is the usual invocation. */
  lemma RomPathOnly(prog: CString, rom: CString)
    requires CexprHash(rom, 0) != RomHash && CexprHash(rom, 0) != BiosHash
    ensures ParseFrom([prog, rom], 1, Initial([])) == (Continue, Args(true, rom, false, []))
  {
  }

  /** Both flags, in either order, set both paths. */
  lemma BothFlags(prog: CString, rom: CString, bios: CString)
    ensures ParseFrom([prog, BiosFlag, bios, RomFlag, rom], 1, Initial([]))
      == (Continue, Args(true, rom, true, bios))
  {
    FlagHashes();
    var argv := [prog, BiosFlag, bios, RomFlag, rom];
    var a := Initial([]).(biosGiven := true, biosPath := bios);
    assert ParseFrom(argv, 3, a) == ParseFrom(argv, 5, a.(romGiven := true, romPath := rom));
  }

  /** Two unrecognised arguments: the second one ends the program with -1. */
  lemma SecondUnknownFails(prog: CString, x: CString, y: CString)
    requires CexprHash(x, 0) != RomHash && CexprHash(x, 0) != BiosHash
    requires CexprHash(y, 0) != RomHash && CexprHash(y, 0) != BiosHash
    ensures ParseFrom([prog, x, y], 1, Initial([])).0 == Exit(-1)
  {
  }

  /** "L,rom" given as the first argument acts as the --rom flag. */
  lemma AliasActsAsRomFlag(prog: CString, path: CString)
    ensures ParseFrom([prog, RomAlias, path], 1, Initial([])) == (Continue, Args(true, path, false, []))
  {
    RomAliasCollides();
  }

  /** The argument globals of main.cpp and the parsing loop at the start of `main`. */
  class ArgumentState {
    var romGiven: bool
    var romPath: CString
    var biosGiven: bool
    var biosPath: CString

    function Current(): Args
      reads this
    {
      Args(romGiven, romPath, biosGiven, biosPath)
    }

    /** Globals are zero-initialised: no flag given, empty paths. */
    constructor ()
      ensures Current() == Args(false, [], false, [])
    {
      romGiven, romPath, biosGiven, biosPath := false, [], false, [];
    }

    /**
     * The parse at the start of `main`: returns Exit(-1) where `main`
     * returns -1, and Continue where it goes on.
     */
    method ParseArguments(argv: seq<CString>) returns (status: Status)
      modifies this
      ensures (status, Current()) == ParseFrom(argv, 1, Initial(old(romPath)))
    {
      romGiven := false;
      biosGiven := false;
      biosPath := [];
      var i := 1;
      while i < |argv|
        invariant 1 <= i
        invariant ParseFrom(argv, i, Current()) == ParseFrom(argv, 1, Initial(old(romPath)))
        decreases |argv| - i
      {
        var h := CexprHash(argv[i], 0);
        if h == RomHash {
          i := i + 1;
          if i == |argv| {
            return Exit(-1);
          }
          romGiven := true;
          romPath := argv[i];
        } else if h == BiosHash {
          i := i + 1;
          if i == |argv| {
            return Exit(-1);
          }
          biosGiven := true;
          biosPath := argv[i];
        } else {
          if i == 1 {
            romGiven := true;
            romPath := argv[i];
          } else {
            return Exit(-1);
          }
        }
        i := i + 1;
      }
      status := Continue;
    }
  }

  // ---------------------------------------------------------------------
  // memEditorHighlight
  // ---------------------------------------------------------------------

  /** memEditorHighlight: whether the memory editor highlights offset `off`. */
  function MemEditorHighlight(off: u64): bool {
    || 0x000_0000 <= off <= 0x000_3FFF   // BIOS
    || 0x200_0000 <= off <= 0x203_FFFF   // on-board work RAM
    || 0x300_0000 <= off <= 0x300_7FFF   // on-chip work RAM
    || 0x400_0000 <= off <= 0x400_0209   // I/O registers
    || 0x500_0000 <= off <= 0x500_03FF   // palette RAM
    || 0x600_0000 <= off <= 0x601_7FFF   // VRAM
    || 0x700_0000 <= off <= 0x700_03FF   // OAM
    || 0x800_0000 <= off <= 0x9FF_FFFF   // ROM, wait state 0
    || 0xE00_0000 <= off <= 0xE00_FFFF   // SRAM
  }

  /** The highlighted regions as (first, last) pairs, in ascending order. */
  const HighlightRegions: seq<(int, int)> := [
    (0x000_0000, 0x000_3FFF), (0x200_0000, 0x203_FFFF), (0x300_0000, 0x300_7FFF),
    (0x400_0000, 0x400_0209), (0x500_0000, 0x500_03FF), (0x600_0000, 0x601_7FFF),
    (0x700_0000, 0x700_03FF), (0x800_0000, 0x9FF_FFFF), (0xE00_0000, 0xE00_FFFF)]

  predicate InRegion(off: int, k: nat)
    requires k < |HighlightRegions|
  {
    HighlightRegions[k].0 <= off <= HighlightRegions[k].1
  }

  /** An offset is highlighted exactly when it lies in one of the nine regions. */
  lemma HighlightMatchesRegions(off: u64)
    ensures MemEditorHighlight(off) <==> exists k :: 0 <= k < |HighlightRegions| && InRegion(off, k)
  {
    if 0x000_0000 <= off <= 0x000_3FFF { assert InRegion(off, 0); }
    if 0x200_0000 <= off <= 0x203_FFFF { assert InRegion(off, 1); }
    if 0x300_0000 <= off <= 0x300_7FFF { assert InRegion(off, 2); }
    if 0x400_0000 <= off <= 0x400_0209 { assert InRegion(off, 3); }
    if 0x500_0000 <= off <= 0x500_03FF { assert InRegion(off, 4); }
    if 0x600_0000 <= off <= 0x601_7FFF { assert InRegion(off, 5); }
    if 0x700_0000 <= off <= 0x700_03FF { assert InRegion(off, 6); }
    if 0x800_0000 <= off <= 0x9FF_FFFF { assert InRegion(off, 7); }
    if 0xE00_0000 <= off <= 0xE00_FFFF { assert InRegion(off, 8); }
  }

  /** The regions are ordered and do not overlap, so an offset lies in at most one. */
  lemma RegionsDisjoint(off: int, j: nat, k: nat)
    requires j < k < |HighlightRegions|
    ensures HighlightRegions[j].1 < HighlightRegions[k].0
    ensures !(InRegion(off, j) && InRegion(off, k))
  {
  }

  /** Every timer register lies in the highlighted I/O region. */
  lemma TimerRegistersHighlighted(address: u32)
    requires Timer.IsTimerAddress(address)
    ensures MemEditorHighlight(address)
  {
  }

  /**
   * WAITCNT (0x4000204) is highlighted; InternalMemoryControl (0x4000800)
   * lies past the end of the I/O region and is not, nor is the ROM mirror
   * for wait state 1 (0xA000000).
   */
  lemma HighlightExamples()
    ensures MemEditorHighlight(0x400_0204)
    ensures !MemEditorHighlight(0x400_0800)
    ensures !MemEditorHighlight(0xA00_0000)
  {
  }
}
