/** Blacklisted satellites, as six 64-bit masks and as a list of satellite ids. */
module SvBlacklist {
  import opened Bits

  datatype Constellation = Unknown | Gps | Sbas | Glonass | Qzss | Beidou | Galileo | Navic

  datatype SvSource = SvSource(constellation: Constellation, svId: nat)

  datatype Masks = Masks(bds: nat, gal: nat, glo: nat, qzss: nat, sbas: nat, navic: nat)

  const CLEAR := Masks(0, 0, 0, 0, 0, 0)

  const SBAS_INITIAL2: nat := 183
  const SBAS_INITIAL_LENGTH: nat := 39

  predicate HasMask(c: Constellation) {
    c != Unknown && c != Gps
  }

  function Initial(c: Constellation): nat {
    match c
    case Glonass => 65
    case Sbas => 120
    case Qzss => 193
    case Beidou => 201
    case Galileo => 301
    case Navic => 401
    case _ => 0
  }

  function MaskOf(m: Masks, c: Constellation): nat {
    match c
    case Glonass => m.glo
    case Sbas => m.sbas
    case Qzss => m.qzss
    case Beidou => m.bds
    case Galileo => m.gal
    case Navic => m.navic
    case _ => 0
  }

  function WithMask(m: Masks, c: Constellation, v: nat): Masks {
    match c
    case Glonass => m.(glo := v)
    case Sbas => m.(sbas := v)
    case Qzss => m.(qzss := v)
    case Beidou => m.(bds := v)
    case Galileo => m.(gal := v)
    case Navic => m.(navic := v)
    case _ => m
  }

  ghost predicate Fits(m: Masks) {
    forall c :: MaskOf(m, c) < TWO64
  }

  // ---------------------------------------------------------------- satellites

  /** The satellites a mask has a bit for. SBAS has two ranges of ids. */
  predicate Satellite(c: Constellation, id: nat) {
    HasMask(c) &&
    if c == Sbas then 120 <= id <= 158 || 183 <= id <= 207 else Initial(c) <= id < Initial(c) + 64
  }

  function BitOf(c: Constellation, id: nat): (k: nat)
    requires Satellite(c, id)
    ensures k < 64
  {
    if c == Sbas && id >= SBAS_INITIAL2 then id - SBAS_INITIAL2 + SBAS_INITIAL_LENGTH else id - Initial(c)
  }

  function SatelliteAt(c: Constellation, k: nat): (id: nat)
    requires HasMask(c) && k < 64
    ensures Satellite(c, id) && BitOf(c, id) == k
  {
    if c == Sbas && k >= SBAS_INITIAL_LENGTH then k - SBAS_INITIAL_LENGTH + SBAS_INITIAL2 else k + Initial(c)
  }

  /** What a list means, whatever its order and duplicates: id 0 stands for the whole constellation. */
  predicate Blocks(list: seq<SvSource>, c: Constellation, id: nat) {
    Satellite(c, id) && (SvSource(c, 0) in list || SvSource(c, id) in list)
  }

  ghost predicate MaskBlocks(m: Masks, c: Constellation, id: nat) {
    Satellite(c, id) && Bit(MaskOf(m, c), BitOf(c, id))
  }

  // ---------------------------------------------------------------- list to masks

  /** The first id of the range an entry is read against. */
  function RangeStart(e: SvSource): nat {
    if e.constellation == Sbas && e.svId >= SBAS_INITIAL2 then SBAS_INITIAL2 else Initial(e.constellation)
  }

  /** The entry names one satellite and passes the range checks. */
  predicate InRange(e: SvSource) {
    && HasMask(e.constellation) && e.svId != 0
    && RangeStart(e) <= e.svId < RangeStart(e) + 64
    && (e.constellation == Sbas ==> e.svId < 120 + SBAS_INITIAL_LENGTH || e.svId >= SBAS_INITIAL2)
  }

  function ShiftCount(e: SvSource): nat
    requires InRange(e)
  {
    e.svId - RangeStart(e) + if RangeStart(e) == SBAS_INITIAL2 then SBAS_INITIAL_LENGTH else 0
  }

  /** Shifting a 64-bit one by 64 or more is undefined in C++. */
  predicate Defined(e: SvSource) {
    InRange(e) ==> ShiftCount(e) < 64
  }

  predicate AllDefined(list: seq<SvSource>) {
    forall e :: e in list ==> Defined(e)
  }

  /** The conversion is undefined exactly for SBAS ids 208 to 246: the second SBAS range is checked
      against 64 ids, though only 25 bits are left for it. */
  lemma UndefinedExactlyForHighSbas(e: SvSource)
    ensures Defined(e) <==> !(e.constellation == Sbas && 208 <= e.svId <= 246)
    ensures Defined(e) ==> (InRange(e) <==> Satellite(e.constellation, e.svId))
    ensures Defined(e) && InRange(e) ==> ShiftCount(e) == BitOf(e.constellation, e.svId)
  {
  }

  function ParseOne(e: SvSource, m: Masks): Masks {
    if !HasMask(e.constellation) then m
    else if e.svId == 0 then WithMask(m, e.constellation, ALL64)
    else if !InRange(e) then m
    else WithMask(m, e.constellation, SetBit(MaskOf(m, e.constellation), ShiftCount(e)))
  }

  function Parse(list: seq<SvSource>, m: Masks): Masks {
    if list == [] then m else ParseOne(list[|list| - 1], Parse(list[..|list| - 1], m))
  }

  function ToMasks(list: seq<SvSource>, m: Masks): Masks {
    if list == [] then CLEAR else Parse(list, m)
  }

  method ConvertToGnssSvIdConfig(list: seq<SvSource>, config0: Masks)
    returns (config: Masks, ok: bool, defined: bool)
    ensures defined == AllDefined(list)
    ensures defined ==> config == ToMasks(list, config0)
    ensures defined ==> ok == (list == [] || config != CLEAR)
  {
    config, ok, defined := config0, false, true;
    if |list| == 0 {
      config, ok := CLEAR, true;
      return;
    }
    for i := 0 to |list|
      invariant defined
      invariant forall e :: e in list[..i] ==> Defined(e)
      invariant config == Parse(list[..i], config0)
    {
      var source := list[i];
      assert list[..i + 1][..i] == list[..i];
      assert list[..i + 1] == list[..i] + [source];
      var c := source.constellation;
      var known, initialSvId, offset := HasMask(c), Initial(c), 0;
      if c == Sbas {
        if source.svId == 0 {
        } else if source.svId >= SBAS_INITIAL2 {
          initialSvId, offset := SBAS_INITIAL2, SBAS_INITIAL_LENGTH;
        } else if source.svId >= 120 && source.svId < 120 + SBAS_INITIAL_LENGTH {
          initialSvId := 120;
        } else {
          known := false;
        }
      }
      if known {
        if source.svId == 0 {
          config := WithMask(config, c, ALL64);
        } else if source.svId < initialSvId || source.svId >= initialSvId + 64 {
        } else {
          var shiftCnt := source.svId + offset - initialSvId;
          if shiftCnt >= 64 {
            assert !Defined(source) && source in list;
            defined := false;
            return;
          }
          config := WithMask(config, c, SetBit(MaskOf(config, c), shiftCnt));
        }
      }
    }
    assert list[..|list|] == list;
    ok := config.glo != 0 || config.bds != 0 || config.gal != 0 || config.qzss != 0 || config.sbas != 0
          || config.navic != 0;
  }

  lemma WithMaskReads(m: Masks, c: Constellation, v: nat, d: Constellation)
    requires HasMask(c)
    ensures MaskOf(WithMask(m, c, v), d) == if d == c then v else MaskOf(m, d)
  {
  }

  lemma ParseOneMask(e: SvSource, m: Masks, d: Constellation)
    requires Fits(m) && Defined(e)
    ensures MaskOf(ParseOne(e, m), d) < TWO64
    ensures MaskOf(ParseOne(e, m), d) ==
      if d != e.constellation || !HasMask(d) then MaskOf(m, d)
      else if e.svId == 0 then ALL64
      else if InRange(e) then SetBit(MaskOf(m, d), ShiftCount(e))
      else MaskOf(m, d)
  {
    PowersOf64();
    assert MaskOf(m, d) < TWO64;
    if HasMask(e.constellation) {
      WithMaskReads(m, e.constellation, ALL64, d);
      if InRange(e) {
        WithMaskReads(m, e.constellation, SetBit(MaskOf(m, e.constellation), ShiftCount(e)), d);
        SetBitFits(MaskOf(m, d), ShiftCount(e), 64);
      }
    }
  }

  lemma ParseOneBlocks(e: SvSource, m: Masks, c: Constellation, id: nat)
    requires Fits(m) && Defined(e)
    ensures Fits(ParseOne(e, m))
    ensures Satellite(c, id) ==> (MaskBlocks(ParseOne(e, m), c, id) <==>
      MaskBlocks(m, c, id) || (e.constellation == c && (e.svId == 0 || e.svId == id)))
  {
    forall d ensures MaskOf(ParseOne(e, m), d) < TWO64 { ParseOneMask(e, m, d); }
    if Satellite(c, id) && e.constellation == c {
      ParseOneMask(e, m, c);
      if e.svId == 0 {
        PowersOf64();
        OnesBits(64, BitOf(c, id));
      } else {
        UndefinedExactlyForHighSbas(e);
        if InRange(e) { SetBitBits(MaskOf(m, c), ShiftCount(e), BitOf(c, id)); }
      }
    } else if Satellite(c, id) {
      ParseOneMask(e, m, c);
    }
  }

  /** Reading a list into masks adds exactly the satellites the list blocks. */
  lemma {:induction false} ParseBlocks(list: seq<SvSource>, m: Masks, c: Constellation, id: nat)
    requires Fits(m) && AllDefined(list)
    ensures Fits(Parse(list, m))
    ensures MaskBlocks(Parse(list, m), c, id) <==> MaskBlocks(m, c, id) || Blocks(list, c, id)
  {
    if list != [] {
      var n := |list| - 1;
      assert list == list[..n] + [list[n]];
      assert forall e :: e in list <==> e in list[..n] || e == list[n];
      ParseBlocks(list[..n], m, c, id);
      ParseOneBlocks(list[n], Parse(list[..n], m), c, id);
    }
  }

  // ---------------------------------------------------------------- masks to list

  /** The id printed for a bit of a mask that starts at `initial`. */
  function PrintedId(c: Constellation, initial: nat, k: nat): nat {
    if c == Sbas && k >= SBAS_INITIAL_LENGTH then k - SBAS_INITIAL_LENGTH + SBAS_INITIAL2 else k + initial
  }

  function PrintFrom(mask: nat, k: nat, initial: nat, c: Constellation): seq<SvSource>
    decreases mask
  {
    if mask == 0 then []
    else
      (if mask % 2 == 1 then [SvSource(c, PrintedId(c, initial, k))] else []) + PrintFrom(mask / 2, k + 1, initial, c)
  }

  function PrintMask(mask: nat, initial: nat, c: Constellation): seq<SvSource> {
    if mask == ALL64 then [SvSource(c, 0)] else PrintFrom(mask, 0, initial, c)
  }

  /** The first SBAS range: the low 39 bits, kept by shifting left and back. */
  function LowSbas(mask: nat): nat
    requires mask < TWO64
  {
    Shr(Shl64(mask, 64 - SBAS_INITIAL_LENGTH), 64 - SBAS_INITIAL_LENGTH)
  }

  /** The second SBAS range: the 25 bits above. */
  function HighSbas(mask: nat): nat {
    Shr(mask, SBAS_INITIAL_LENGTH)
  }

  function PrintSbas(mask: nat): seq<SvSource>
    requires mask < TWO64
  {
    PrintMask(LowSbas(mask), 120, Sbas) + PrintMask(HighSbas(mask), SBAS_INITIAL2, Sbas)
  }

  function Print(m: Masks): seq<SvSource>
    requires Fits(m)
  {
    assert MaskOf(m, Sbas) < TWO64;
    PrintMask(m.bds, 201, Beidou) + PrintMask(m.gal, 301, Galileo) + PrintMask(m.glo, 65, Glonass) +
    PrintMask(m.qzss, 193, Qzss) + PrintSbas(m.sbas) + PrintMask(m.navic, 401, Navic)
  }

  method ConvertGnssSvIdMaskToList(mask0: nat, svIds: seq<SvSource>, initial: nat, c: Constellation)
    returns (r: seq<SvSource>)
    ensures r == svIds + PrintMask(mask0, initial, c)
  {
    r := svIds;
    var mask := mask0;
    if mask == ALL64 {
      r := r + [SvSource(c, 0)];
      return;
    }
    var bitNumber := 0;
    while mask > 0
      invariant r + PrintFrom(mask, bitNumber, initial, c) == svIds + PrintFrom(mask0, 0, initial, c)
      decreases mask
    {
      ghost var before, rest := r, PrintFrom(mask / 2, bitNumber + 1, initial, c);
      if mask % 2 == 1 {
        var svId := bitNumber + initial;
        if c == Sbas {
          if bitNumber >= SBAS_INITIAL_LENGTH {
            svId := bitNumber - SBAS_INITIAL_LENGTH + SBAS_INITIAL2;
          }
        }
        r := r + [SvSource(c, svId)];
        assert r + rest == before + ([SvSource(c, svId)] + rest);
      } else {
        assert [] + rest == rest;
      }
      bitNumber := bitNumber + 1;
      mask := mask / 2;
    }
  }

  method ConvertFromGnssSvIdConfig(config: Masks) returns (list: seq<SvSource>)
    requires Fits(config)
    ensures list == Print(config)
  {
    assert MaskOf(config, Sbas) < TWO64;
    list := ConvertMask(config.bds, [], 201, Beidou);
    list := ConvertMask(config.gal, list, 301, Galileo);
    list := ConvertMask(config.glo, list, 65, Glonass);
    list := ConvertMask(config.qzss, list, 193, Qzss);
    list := ConvertSbas(config.sbas, list);
    list := ConvertMask(config.navic, list, 401, Navic);
  }

  /** One mask of the conversion: nothing is printed for an empty mask. */
  method ConvertMask(mask: nat, list0: seq<SvSource>, initial: nat, c: Constellation) returns (list: seq<SvSource>)
    ensures list == list0 + PrintMask(mask, initial, c)
  {
    list := list0;
    if mask != 0 {
      list := ConvertGnssSvIdMaskToList(mask, list, initial, c);
    }
  }

  /** The SBAS part of the conversion. */
  method ConvertSbas(sbas: nat, list0: seq<SvSource>) returns (list: seq<SvSource>)
    requires sbas < TWO64
    ensures list == list0 + PrintSbas(sbas)
  {
    list := list0;
    if sbas != 0 {
      var mask := Shl64(sbas, 64 - SBAS_INITIAL_LENGTH);
      mask := Shr(mask, 64 - SBAS_INITIAL_LENGTH);
      list := ConvertGnssSvIdMaskToList(mask, list, 120, Sbas);
      mask := Shr(sbas, SBAS_INITIAL_LENGTH);
      list := ConvertGnssSvIdMaskToList(mask, list, SBAS_INITIAL2, Sbas);
      assert list == list0 + (PrintMask(LowSbas(sbas), 120, Sbas) + PrintMask(HighSbas(sbas), SBAS_INITIAL2, Sbas));
    } else {
      ZeroSbasPrintsNothing();
      assert list == list0 + PrintSbas(sbas);
    }
  }

  lemma ZeroPrintsNothing()
    ensures forall initial, c :: PrintMask(0, initial, c) == []
  {
  }

  lemma ZeroSbasPrintsNothing()
    ensures PrintSbas(0) == []
  {
    ZeroPrintsNothing();
    ShlZero(64 - SBAS_INITIAL_LENGTH);
    ShrZero(64 - SBAS_INITIAL_LENGTH);
    ShrZero(SBAS_INITIAL_LENGTH);
  }

  lemma ShrZero(s: nat)
    ensures Shr(0, s) == 0
  {
  }

  lemma ShlZero(s: nat)
    ensures Shl64(0, s) == 0
  {
  }

  /** Entry e is printed for bit j of a mask printed from bit number k. */
  ghost predicate PrintedAt(mask: nat, k: nat, initial: nat, c: Constellation, e: SvSource, j: nat) {
    Bit(mask, j) && e == SvSource(c, PrintedId(c, initial, k + j))
  }

  lemma {:induction false} PrintFromMembers(mask: nat, k: nat, initial: nat, c: Constellation, e: SvSource)
    ensures e in PrintFrom(mask, k, initial, c) <==>
      exists j: nat :: PrintedAt(mask, k, initial, c, e, j)
    decreases mask
  {
    if mask == 0 {
      forall j: nat ensures !Bit(mask, j) { ZeroBits(j); }
    } else {
      PrintFromMembers(mask / 2, k + 1, initial, c, e);
      var first := SvSource(c, PrintedId(c, initial, k));
      assert e in PrintFrom(mask, k, initial, c) <==>
        (mask % 2 == 1 && e == first) || e in PrintFrom(mask / 2, k + 1, initial, c);
      var half, next := mask / 2, k + 1;
      if j: nat :| PrintedAt(half, next, initial, c, e, j) {
        assert PrintedAt(mask, k, initial, c, e, j + 1);
      }
      if j: nat :| PrintedAt(mask, k, initial, c, e, j) {
        assert j > 0 ==> PrintedAt(mask / 2, k + 1, initial, c, e, j - 1);
      }
      if mask % 2 == 1 && e == first {
        assert PrintedAt(mask, k, initial, c, e, 0);
      }
    }
  }

  /** Printing a mask whose bits all name satellites of the range that starts at `initial`. */
  lemma PrintMaskBlocks(mask: nat, initial: nat, c: Constellation, id: nat)
    requires mask < TWO64 && Satellite(c, id) && initial > 0
    ensures mask == ALL64 ==> SvSource(c, 0) in PrintMask(mask, initial, c) && Bit(mask, BitOf(c, id))
    ensures mask != ALL64 ==> SvSource(c, 0) !in PrintMask(mask, initial, c)
    ensures mask != ALL64 ==> (SvSource(c, id) in PrintMask(mask, initial, c) <==>
      exists j: nat :: PrintedAt(mask, 0, initial, c, SvSource(c, id), j))
    ensures forall e :: e in PrintMask(mask, initial, c) ==> e.constellation == c
  {
    PowersOf64();
    if mask == ALL64 {
      OnesBits(64, BitOf(c, id));
    } else {
      PrintFromMembers(mask, 0, initial, c, SvSource(c, id));
      PrintFromMembers(mask, 0, initial, c, SvSource(c, 0));
      forall e | e in PrintMask(mask, initial, c) ensures e.constellation == c {
        PrintFromMembers(mask, 0, initial, c, e);
      }
    }
  }

  lemma PrintPlainBlocks(mask: nat, c: Constellation, id: nat)
    requires mask < TWO64 && Satellite(c, id) && c != Sbas
    ensures Blocks(PrintMask(mask, Initial(c), c), c, id) <==> Bit(mask, BitOf(c, id))
  {
    PrintMaskBlocks(mask, Initial(c), c, id);
    assert Bit(mask, BitOf(c, id)) ==> PrintedAt(mask, 0, Initial(c), c, SvSource(c, id), BitOf(c, id));
  }

  lemma LowSbasBits(mask: nat, j: nat)
    requires mask < TWO64
    ensures Bit(LowSbas(mask), j) <==> j < SBAS_INITIAL_LENGTH && Bit(mask, j)
    ensures LowSbas(mask) < Pow2(SBAS_INITIAL_LENGTH)
  {
    PowersOf64();
    var spare := 64 - SBAS_INITIAL_LENGTH;
    ShrFits(Shl64(mask, spare), spare, 64);
    if j < SBAS_INITIAL_LENGTH {
      ShrBits(Shl64(mask, spare), spare, j);
      Shl64Bits(mask, spare, j + spare);
    } else {
      HighBits(LowSbas(mask), SBAS_INITIAL_LENGTH, j);
    }
  }

  lemma HighSbasBits(mask: nat, j: nat)
    requires mask < TWO64
    ensures Bit(HighSbas(mask), j) <==> j < 25 && Bit(mask, j + SBAS_INITIAL_LENGTH)
    ensures HighSbas(mask) < Pow2(25)
  {
    PowersOf64();
    ShrFits(mask, SBAS_INITIAL_LENGTH, 64);
    ShrBits(mask, SBAS_INITIAL_LENGTH, j);
    if j >= 25 { HighBits(HighSbas(mask), 25, j); }
  }

  lemma LowSbasPrinted(mask: nat, id: nat)
    requires mask < TWO64 && Satellite(Sbas, id)
    ensures SvSource(Sbas, 0) !in PrintMask(LowSbas(mask), 120, Sbas)
    ensures SvSource(Sbas, id) in PrintMask(LowSbas(mask), 120, Sbas) <==> id <= 158 && Bit(mask, id - 120)
    ensures forall e :: e in PrintMask(LowSbas(mask), 120, Sbas) ==> e.constellation == Sbas
  {
    var low, e := LowSbas(mask), SvSource(Sbas, id);
    PowersOf64();
    PowLess(39, 64);
    LowSbasBits(mask, 0);
    PrintMaskBlocks(low, 120, Sbas, id);
    LowSbasBits(mask, id - 120);
    if Bit(low, id - 120) { assert PrintedAt(low, 0, 120, Sbas, e, id - 120); }
    if j: nat :| PrintedAt(low, 0, 120, Sbas, e, j) { LowSbasBits(mask, j); }
  }

  lemma HighSbasPrinted(mask: nat, id: nat)
    requires mask < TWO64 && Satellite(Sbas, id)
    ensures SvSource(Sbas, 0) !in PrintMask(HighSbas(mask), SBAS_INITIAL2, Sbas)
    ensures SvSource(Sbas, id) in PrintMask(HighSbas(mask), SBAS_INITIAL2, Sbas) <==>
      id >= SBAS_INITIAL2 && Bit(mask, id - SBAS_INITIAL2 + SBAS_INITIAL_LENGTH)
    ensures forall e :: e in PrintMask(HighSbas(mask), SBAS_INITIAL2, Sbas) ==> e.constellation == Sbas
  {
    var high, e := HighSbas(mask), SvSource(Sbas, id);
    PowersOf64();
    PowLess(25, 64);
    HighSbasBits(mask, 0);
    PrintMaskBlocks(high, SBAS_INITIAL2, Sbas, id);
    if id >= SBAS_INITIAL2 {
      HighSbasBits(mask, id - SBAS_INITIAL2);
      if Bit(high, id - SBAS_INITIAL2) {
        assert PrintedAt(high, 0, SBAS_INITIAL2, Sbas, e, id - SBAS_INITIAL2);
      }
    }
    if j: nat :| PrintedAt(high, 0, SBAS_INITIAL2, Sbas, e, j) { HighSbasBits(mask, j); }
  }

  lemma PrintSbasBlocks(mask: nat, id: nat)
    requires mask < TWO64 && Satellite(Sbas, id)
    ensures Blocks(PrintSbas(mask), Sbas, id) <==> Bit(mask, BitOf(Sbas, id))
    ensures forall e :: e in PrintSbas(mask) ==> e.constellation == Sbas
  {
    LowSbasPrinted(mask, id);
    HighSbasPrinted(mask, id);
  }

  lemma {:induction false} PowLess(a: nat, b: nat)
    requires 1 <= a < b
    ensures Pow2(a) < Pow2(b) - 1
    decreases b
  {
    if a < b - 1 { PowLess(a, b - 1); }
    assert Pow2(b) == 2 * Pow2(b - 1);
    assert Pow2(a) == 2 * Pow2(a - 1);
  }

  /** The printed list blocks exactly the satellites whose bit is set. */
  lemma PrintBlocks(m: Masks, c: Constellation, id: nat)
    requires Fits(m)
    ensures Blocks(Print(m), c, id) <==> MaskBlocks(m, c, id)
  {
    if Satellite(c, id) {
      assert MaskOf(m, c) < TWO64;
      PartsOfPrint(m, c, 0);
      PartsOfPrint(m, c, id);
      if c == Sbas {
        PrintSbasBlocks(m.sbas, id);
      } else {
        PrintPlainBlocks(MaskOf(m, c), c, id);
      }
    }
  }

  function PartOf(m: Masks, c: Constellation): seq<SvSource>
    requires Fits(m)
  {
    assert MaskOf(m, Sbas) < TWO64;
    if c == Sbas then PrintSbas(m.sbas) else PrintMask(MaskOf(m, c), Initial(c), c)
  }

  lemma PartMembers(m: Masks, d: Constellation, e: SvSource)
    requires Fits(m) && HasMask(d) && e in PartOf(m, d)
    ensures e.constellation == d
  {
    assert MaskOf(m, d) < TWO64;
    if d == Sbas {
      PrintSbasBlocks(m.sbas, 120);
    } else {
      PrintMaskBlocks(MaskOf(m, d), Initial(d), d, Initial(d));
    }
  }

  lemma PartsOfPrint(m: Masks, c: Constellation, id: nat)
    requires Fits(m) && HasMask(c)
    ensures SvSource(c, id) in Print(m) <==> SvSource(c, id) in PartOf(m, c)
  {
    var e := SvSource(c, id);
    forall d | HasMask(d) && e in PartOf(m, d) ensures d == c { PartMembers(m, d, e); }
    assert Print(m) == PartOf(m, Beidou) + PartOf(m, Galileo) + PartOf(m, Glonass) + PartOf(m, Qzss) +
                       PartOf(m, Sbas) + PartOf(m, Navic);
  }

  // ---------------------------------------------------------------- round trips

  lemma {:induction false} PrintFromDefined(mask: nat, k: nat, initial: nat, c: Constellation)
    requires c == Sbas ==> mask < Pow2(SBAS_INITIAL_LENGTH)
    requires c == Sbas ==> initial == 120 || (initial == SBAS_INITIAL2 && mask < Pow2(25))
    requires k == 0
    ensures AllDefined(PrintFrom(mask, k, initial, c))
  {
    forall e | e in PrintFrom(mask, k, initial, c) ensures Defined(e) {
      PrintFromMembers(mask, k, initial, c, e);
      var j: nat :| PrintedAt(mask, k, initial, c, e, j);
      if c == Sbas {
        if j >= SBAS_INITIAL_LENGTH { HighBits(mask, SBAS_INITIAL_LENGTH, j); }
        if initial == SBAS_INITIAL2 && j >= 25 { HighBits(mask, 25, j); }
      }
      UndefinedExactlyForHighSbas(e);
    }
  }

  lemma LowSbasDefined(mask: nat)
    requires mask < TWO64
    ensures AllDefined(PrintMask(LowSbas(mask), 120, Sbas))
  {
    LowSbasBits(mask, 0);
    PowersOf64();
    PowLess(39, 64);
    PrintFromDefined(LowSbas(mask), 0, 120, Sbas);
  }

  lemma HighSbasDefined(mask: nat)
    requires mask < TWO64
    ensures AllDefined(PrintMask(HighSbas(mask), SBAS_INITIAL2, Sbas))
  {
    HighSbasBits(mask, 0);
    PowersOf64();
    PowLess(25, 64);
    PowLess(25, SBAS_INITIAL_LENGTH);
    PrintFromDefined(HighSbas(mask), 0, SBAS_INITIAL2, Sbas);
  }

  lemma SbasPartDefined(mask: nat)
    requires mask < TWO64
    ensures AllDefined(PrintSbas(mask))
  {
    LowSbasDefined(mask);
    HighSbasDefined(mask);
  }

  /** A printed list never asks for an undefined shift. */
  lemma PrintDefined(m: Masks)
    requires Fits(m)
    ensures AllDefined(Print(m))
  {
    var list := Print(m);
    assert MaskOf(m, Sbas) < TWO64;
    SbasPartDefined(m.sbas);
    forall e | e in list ensures Defined(e) {
      if e.constellation == Sbas {
        PartsOfPrint(m, Sbas, e.svId);
        assert e in PrintSbas(m.sbas);
      } else {
        UndefinedExactlyForHighSbas(e);
      }
    }
  }

  lemma ClearBlocksNothing(c: Constellation, id: nat)
    ensures Fits(CLEAR) && !MaskBlocks(CLEAR, c, id)
  {
    if Satellite(c, id) { ZeroBits(BitOf(c, id)); }
  }

  lemma OneMaskComesBack(m: Masks, c: Constellation)
    requires Fits(m) && HasMask(c)
    ensures AllDefined(Print(m)) && MaskOf(Parse(Print(m), CLEAR), c) == MaskOf(m, c)
  {
    PowersOf64();
    PrintDefined(m);
    var r := Parse(Print(m), CLEAR);
    ClearBlocksNothing(c, Initial(c));
    ParseBlocks(Print(m), CLEAR, c, Initial(c));
    assert MaskOf(m, c) < TWO64 && MaskOf(r, c) < TWO64;
    forall k: nat | k < 64 ensures Bit(MaskOf(r, c), k) <==> Bit(MaskOf(m, c), k) {
      var id := SatelliteAt(c, k);
      ClearBlocksNothing(c, id);
      ParseBlocks(Print(m), CLEAR, c, id);
      PrintBlocks(m, c, id);
    }
    SameBits(MaskOf(r, c), MaskOf(m, c), 64);
  }

  /** Masks to list to masks gives back the same six masks, for every six 64-bit masks. */
  lemma MasksRoundTrip(m: Masks)
    requires Fits(m)
    ensures AllDefined(Print(m)) && ToMasks(Print(m), CLEAR) == m
  {
    PrintDefined(m);
    var r := Parse(Print(m), CLEAR);
    forall c | HasMask(c) ensures MaskOf(r, c) == MaskOf(m, c) { OneMaskComesBack(m, c); }
    assert MaskOf(r, Beidou) == m.bds && MaskOf(r, Galileo) == m.gal && MaskOf(r, Glonass) == m.glo;
    assert MaskOf(r, Qzss) == m.qzss && MaskOf(r, Sbas) == m.sbas && MaskOf(r, Navic) == m.navic;
  }

  /** List to masks to list blocks the same satellites, for every list the conversion is defined on. */
  lemma ListRoundTrip(list: seq<SvSource>, c: Constellation, id: nat)
    requires AllDefined(list)
    ensures Fits(ToMasks(list, CLEAR))
    ensures Blocks(Print(ToMasks(list, CLEAR)), c, id) <==> Blocks(list, c, id)
  {
    ClearBlocksNothing(c, id);
    ParseBlocks(list, CLEAR, c, id);
    PrintBlocks(ToMasks(list, CLEAR), c, id);
  }

  /** A list of one satellite gives one bit. */
  lemma OneSatellite(e: SvSource)
    requires Satellite(e.constellation, e.svId) && Defined(e)
    ensures ToMasks([e], CLEAR) == WithMask(CLEAR, e.constellation, Pow2(BitOf(e.constellation, e.svId)))
  {
    assert [e][..0] == [] && Parse([e], CLEAR) == ParseOne(e, CLEAR);
    UndefinedExactlyForHighSbas(e);
    SetBitOfZero(BitOf(e.constellation, e.svId));
  }

  lemma {:induction false} SetBitOfZero(k: nat)
    ensures SetBit(0, k) == Pow2(k)
  {
    if k > 0 { SetBitOfZero(k - 1); }
  }

  /** Which id is the lowest bit of which mask; the second SBAS range starts at bit 39. */
  lemma FirstIds(c: Constellation, id: nat)
    requires Satellite(c, id)
    ensures BitOf(c, id) == 0 <==> match c
      case Glonass => id == 65
      case Qzss => id == 193
      case Beidou => id == 201
      case Galileo => id == 301
      case Navic => id == 401
      case Sbas => id == 120
      case _ => false
    ensures c == Sbas ==> (BitOf(c, id) == 39 <==> id == 183)
  {
  }

  lemma NonzeroMaskBlocks(m: Masks, c: Constellation) returns (id: nat)
    requires HasMask(c) && 0 < MaskOf(m, c) < TWO64
    ensures MaskBlocks(m, c, id)
  {
    PowersOf64();
    var k := NonzeroHasBit(MaskOf(m, c), 64);
    id := SatelliteAt(c, k);
  }

  lemma NonzeroMask(m: Masks) returns (c: Constellation)
    requires m != CLEAR
    ensures HasMask(c) && MaskOf(m, c) != 0
  {
    c := if m.bds != 0 then Beidou else if m.gal != 0 then Galileo else if m.glo != 0 then Glonass
         else if m.qzss != 0 then Qzss else if m.sbas != 0 then Sbas else Navic;
  }

  /** From cleared masks the conversion of a non-empty list succeeds if and only if the list blocks
      some satellite. */
  lemma SuccessMeansSomethingBlocked(list: seq<SvSource>)
    requires AllDefined(list) && list != []
    ensures Parse(list, CLEAR) != CLEAR <==> exists c, id :: Blocks(list, c, id)
  {
    ClearBlocksNothing(Glonass, 65);
    ParseBlocks(list, CLEAR, Glonass, 65);
    forall c, id ensures MaskBlocks(Parse(list, CLEAR), c, id) <==> Blocks(list, c, id) {
      ClearBlocksNothing(c, id);
      ParseBlocks(list, CLEAR, c, id);
    }
    if Parse(list, CLEAR) != CLEAR {
      var c := NonzeroMask(Parse(list, CLEAR));
      assert MaskOf(Parse(list, CLEAR), c) < TWO64;
      var id := NonzeroMaskBlocks(Parse(list, CLEAR), c);
      assert Blocks(list, c, id);
    }
    if c, id :| Blocks(list, c, id) {
      ClearBlocksNothing(c, id);
    }
  }
}
