/** Tables shared by the SLF liquid-flow products: liquid modes and their
    measurement commands, product ids and names per family, the liquids each
    family supports, and the flow-unit label decoder. */
module SlfCommon {
  import opened Scc1Types

  /** The nine liquid calibration slots. */
  datatype SlfMode = Liqui0 | Liqui1 | Liqui2 | Liqui3 | Liqui4 | Liqui5 | Liqui6 | Liqui7 | Liqui8

  /** The two product families. */
  datatype SlfProduct = Slf3x | Ld20

  // ---------------------------------------------------------------------------
  // Measurement commands

  /** The 16-bit sensor command that starts a measurement in `mode`. */
  function MeasurementCommand(mode: SlfMode): (code: int)
    ensures 0x3603 <= code <= 0x3646
  {
    match mode
    case Liqui0 => 0x3603
    case Liqui1 => 0x3608
    case Liqui2 => 0x3615
    case Liqui3 => 0x361E
    case Liqui4 => 0x3624
    case Liqui5 => 0x362F
    case Liqui6 => 0x3632
    case Liqui7 => 0x3639
    case Liqui8 => 0x3646
  }

  /** The mode whose measurement command is `code`, if any. */
  function ModeOfCommand(code: int): Option<SlfMode>
  {
    if code == 0x3603 then Some(Liqui0)
    else if code == 0x3608 then Some(Liqui1)
    else if code == 0x3615 then Some(Liqui2)
    else if code == 0x361E then Some(Liqui3)
    else if code == 0x3624 then Some(Liqui4)
    else if code == 0x362F then Some(Liqui5)
    else if code == 0x3632 then Some(Liqui6)
    else if code == 0x3639 then Some(Liqui7)
    else if code == 0x3646 then Some(Liqui8)
    else None
  }

  /** ModeOfCommand is the exact inverse of the command table. */
  lemma ModeOfCommandInverse(code: int, mode: SlfMode)
    ensures ModeOfCommand(code) == Some(mode) <==> MeasurementCommand(mode) == code
  {
  }

  /** Distinct modes have distinct measurement commands. */
  lemma MeasurementCommandInjective(a: SlfMode, b: SlfMode)
    ensures MeasurementCommand(a) == MeasurementCommand(b) ==> a == b
  {
    ModeOfCommandInverse(MeasurementCommand(a), a);
    ModeOfCommandInverse(MeasurementCommand(a), b);
  }

  // ---------------------------------------------------------------------------
  // Products

  const Slf3xProductNames: map<int, string> :=
    map[0x070302 := "SLF3S_1300", 0x070303 := "SLF3S_600", 0x070304 := "SLF3C_1300F", 0x070305 := "SLF3S_4000B"]

  const Ld20ProductNames: map<int, string> :=
    map[0x070102 := "LD20_2600B", 0x070103 := "LD20-0600L"]

  /** The family of a product id; ids in neither table are rejected. */
  function FromProductId(productId: int): (r: Result<SlfProduct>)
    ensures r == Ok(Slf3x) <==> 0x070302 <= productId <= 0x070305
    ensures r == Ok(Ld20) <==> productId == 0x070102 || productId == 0x070103
    ensures r.Err? ==> r.error == InvalidProductId(productId)
  {
    if productId in Slf3xProductNames then Ok(Slf3x)
    else if productId in Ld20ProductNames then Ok(Ld20)
    else Err(InvalidProductId(productId))
  }

  /** The two id tables share no id, so the family of an id is unambiguous. */
  lemma ProductTablesDisjoint()
    ensures Slf3xProductNames.Keys !! Ld20ProductNames.Keys
  {
    assert Slf3xProductNames.Keys == {0x070302, 0x070303, 0x070304, 0x070305};
    assert Ld20ProductNames.Keys == {0x070102, 0x070103};
  }

  function ProductNames(product: SlfProduct): map<int, string>
  {
    match product
    case Slf3x => Slf3xProductNames
    case Ld20 => Ld20ProductNames
  }

  /** The product name: the table entry, or the family name for an id the
      family's table does not list. */
  function FromProduct(product: SlfProduct, productId: int): (name: string)
    ensures name != []
  {
    match product
    case Slf3x => if productId in Slf3xProductNames then Slf3xProductNames[productId] else "SLF3x"
    case Ld20 => if productId in Ld20ProductNames then Ld20ProductNames[productId] else "LD20"
  }

  /** For every known id, the family lookup and the name lookup agree: the
      name is that id's table entry; an id unknown to a family gets the family name. */
  lemma ProductNameOfId(productId: int, product: SlfProduct)
    ensures FromProductId(productId) == Ok(product) ==>
              productId in ProductNames(product) && FromProduct(product, productId) == ProductNames(product)[productId]
    ensures productId !in ProductNames(product) ==>
              FromProduct(product, productId) == (if product == Slf3x then "SLF3x" else "LD20")
  {
  }

  // ---------------------------------------------------------------------------
  // Liquid configurations

  /** An ordered dictionary from liquid mode to liquid name. */
  datatype LiquiConfig = LiquiConfig(entries: seq<(SlfMode, string)>)

  /** The modes of a configuration, in insertion order (the dictionary's keys). */
  function SupportedLiquiModes(config: LiquiConfig): (modes: seq<SlfMode>)
    ensures |modes| == |config.entries|
    ensures forall i :: 0 <= i < |modes| ==> modes[i] == config.entries[i].0
  {
    seq(|config.entries|, i requires 0 <= i < |config.entries| => config.entries[i].0)
  }

  /** A dictionary holds each key once. */
  ghost predicate DistinctModes(config: LiquiConfig)
  {
    forall i, j :: 0 <= i < j < |config.entries| ==> config.entries[i].0 != config.entries[j].0
  }

  /** The dictionary lookup `config[mode]`: the name, or KeyError. */
  function LiquiModeName(config: LiquiConfig, mode: SlfMode): (r: Result<string>)
    ensures r.Ok? <==> mode in SupportedLiquiModes(config)
    ensures r.Ok? ==> (mode, r.value) in config.entries
    ensures r.Err? ==> r.error == KeyError
    decreases |config.entries|
  {
    if config.entries == [] then Err(KeyError)
    else if config.entries[0].0 == mode then Ok(config.entries[0].1)
    else
      var rest := LiquiConfig(config.entries[1..]);
      assert SupportedLiquiModes(config) == [config.entries[0].0] + SupportedLiquiModes(rest);
      LiquiModeName(rest, mode)
  }

  /** In a dictionary, every stored pair is found by its key. */
  lemma {:induction false} LiquiModeNameOfEntry(config: LiquiConfig, i: int)
    requires DistinctModes(config) && 0 <= i < |config.entries|
    ensures LiquiModeName(config, config.entries[i].0) == Ok(config.entries[i].1)
    decreases i
  {
    if i > 0 {
      var rest := LiquiConfig(config.entries[1..]);
      assert config.entries[0].0 != config.entries[i].0;
      assert DistinctModes(rest) by {
        forall a, b | 0 <= a < b < |rest.entries|
          ensures rest.entries[a].0 != rest.entries[b].0
        {
          assert rest.entries[a] == config.entries[a + 1] && rest.entries[b] == config.entries[b + 1];
        }
      }
      assert rest.entries[i - 1] == config.entries[i];
      LiquiModeNameOfEntry(rest, i - 1);
    }
  }

  const Slf3xLiquiConfig := LiquiConfig([(Liqui1, "Water"), (Liqui2, "Isopropyl alcohol")])

  const Ld20LiquiConfig := LiquiConfig([(Liqui1, "Water")])

  /** SLF_PRODUCT_LIQUI_MAP: the liquids each family is calibrated for. */
  function ProductLiquiConfig(product: SlfProduct): (config: LiquiConfig)
    ensures DistinctModes(config)
  {
    match product
    case Slf3x => Slf3xLiquiConfig
    case Ld20 => Ld20LiquiConfig
  }

  /** SLF3x supports water (slot 1) and isopropyl alcohol (slot 2), in that
      order; LD20 supports only water; every other slot is a KeyError. */
  lemma ProductLiquids(mode: SlfMode)
    ensures SupportedLiquiModes(ProductLiquiConfig(Slf3x)) == [Liqui1, Liqui2]
    ensures SupportedLiquiModes(ProductLiquiConfig(Ld20)) == [Liqui1]
    ensures LiquiModeName(ProductLiquiConfig(Slf3x), mode) ==
              match mode
              case Liqui1 => Ok("Water")
              case Liqui2 => Ok("Isopropyl alcohol")
              case _ => Err(KeyError)
    ensures LiquiModeName(ProductLiquiConfig(Ld20), mode) ==
              if mode == Liqui1 then Ok("Water") else Err(KeyError)
  {
    LiquiModeNameOfEntry(Slf3xLiquiConfig, 0);
    LiquiModeNameOfEntry(Slf3xLiquiConfig, 1);
    LiquiModeNameOfEntry(Ld20LiquiConfig, 0);
  }

  // ---------------------------------------------------------------------------
  // Flow-unit labels

  const FlowUnitPrefix: map<int, string> :=
    map[3 := "n", 4 := "u", 5 := "m", 6 := "c", 7 := "d", 8 := "", 9 := "", 10 := "h", 11 := "k", 12 := "M", 13 := "G"]

  const FlowUnitTimeBase: map<int, string> :=
    map[0 := "", 1 := "us", 2 := "ms", 3 := "s", 4 := "min", 5 := "h", 6 := "day"]

  const FlowUnitVolume: map<int, string> :=
    map[0 := "nl", 1 := "sl", 8 := "l", 9 := "g"]

  /** dict.get(key, ''). */
  function Lookup(table: map<int, string>, key: int): (text: string)
    ensures key in table ==> text == table[key]
    ensures key !in table ==> text == ""
  {
    if key in table then table[key] else ""
  }

  // Python's `x & 0xF` and `(x >> n) & 0xF` on any int (negative ones included)
  // are Dafny's Euclidean `x % 16` and `x / 2^n % 16`.

  /** The prefix named by bits 0-3; unknown codes name none. */
  function PrefixOf(raw: int): (text: string)
    ensures raw % 0x10 in FlowUnitPrefix ==> text == FlowUnitPrefix[raw % 0x10]
    ensures raw % 0x10 !in FlowUnitPrefix ==> text == ""
  {
    Lookup(FlowUnitPrefix, raw % 0x10)
  }

  /** The time base named by bits 4-7; unknown codes name none. */
  function TimeBaseOf(raw: int): (text: string)
    ensures raw / 0x10 % 0x10 in FlowUnitTimeBase ==> text == FlowUnitTimeBase[raw / 0x10 % 0x10]
    ensures raw / 0x10 % 0x10 !in FlowUnitTimeBase ==> text == ""
  {
    Lookup(FlowUnitTimeBase, raw / 0x10 % 0x10)
  }

  /** The volume unit named by bits 8-11; unknown codes name none. */
  function VolumeOf(raw: int): (text: string)
    ensures raw / 0x100 % 0x10 in FlowUnitVolume ==> text == FlowUnitVolume[raw / 0x100 % 0x10]
    ensures raw / 0x100 % 0x10 !in FlowUnitVolume ==> text == ""
  {
    Lookup(FlowUnitVolume, raw / 0x100 % 0x10)
  }

  /** The human label of a raw flow-unit code; total over every integer. */
  function FlowUnitLabel(raw: int): (text: string)
    ensures '/' in text
  {
    PrefixOf(raw) + VolumeOf(raw) + "/" + TimeBaseOf(raw)
  }

  /** How many times `c` occurs in `s`. */
  function Count(s: string, c: char): nat
  {
    if s == [] then 0 else (if s[0] == c then 1 else 0) + Count(s[1..], c)
  }

  lemma {:induction false} CountConcat(a: string, b: string, c: char)
    ensures Count(a + b, c) == Count(a, c) + Count(b, c)
  {
    if a != [] {
      assert (a + b)[0] == a[0] && (a + b)[1..] == a[1..] + b;
      CountConcat(a[1..], b, c);
    } else {
      assert a + b == b;
    }
  }

  lemma {:induction false} CountAbsent(s: string, c: char)
    requires c !in s
    ensures Count(s, c) == 0
  {
    if s != [] {
      CountAbsent(s[1..], c);
    }
  }

  /** No table entry contains '/'. */
  lemma NoSlashInTables(raw: int)
    ensures '/' !in PrefixOf(raw) && '/' !in TimeBaseOf(raw) && '/' !in VolumeOf(raw)
  {
  }

  /** Every label holds exactly one '/'. */
  lemma FlowUnitLabelOneSlash(raw: int)
    ensures Count(FlowUnitLabel(raw), '/') == 1
  {
    var p, v, t := PrefixOf(raw), VolumeOf(raw), TimeBaseOf(raw);
    NoSlashInTables(raw);
    CountConcat(p + v + "/", t, '/');
    CountConcat(p + v, "/", '/');
    CountConcat(p, v, '/');
    CountAbsent(p, '/');
    CountAbsent(v, '/');
    CountAbsent(t, '/');
  }

  /** The label split at its first '/'; None when there is none. */
  function SplitAtSlash(s: string): Option<(string, string)>
  {
    if s == [] then None
    else if s[0] == '/' then Some(([], s[1..]))
    else match SplitAtSlash(s[1..])
      case None => None
      case Some(parts) => Some(([s[0]] + parts.0, parts.1))
  }

  lemma {:induction false} SplitAtSlashOf(a: string, b: string)
    requires '/' !in a
    ensures SplitAtSlash(a + "/" + b) == Some((a, b))
  {
    if a != [] {
      assert (a + "/" + b)[1..] == a[1..] + "/" + b;
      SplitAtSlashOf(a[1..], b);
      assert [a[0]] + a[1..] == a;
    } else {
      assert a + "/" + b == ['/'] + b;
    }
  }

  /** Reading a label back: before the '/' stand prefix and volume, after it the time base. */
  lemma FlowUnitLabelSplit(raw: int)
    ensures SplitAtSlash(FlowUnitLabel(raw)) == Some((PrefixOf(raw) + VolumeOf(raw), TimeBaseOf(raw)))
  {
    NoSlashInTables(raw);
    SplitAtSlashOf(PrefixOf(raw) + VolumeOf(raw), TimeBaseOf(raw));
  }

  /** Only the low twelve bits select the label; the volume comes from bits 8-11, not a whole byte. */
  lemma FlowUnitLabelLow12Bits(raw: int)
    ensures FlowUnitLabel(raw) == FlowUnitLabel(raw % 0x1000)
  {
    var low := raw % 0x1000;
    var high := raw / 0x1000;
    assert raw == high * 0x1000 + low;
    assert raw % 0x10 == low % 0x10;
    assert raw / 0x10 == high * 0x100 + low / 0x10;
    assert raw / 0x10 % 0x10 == low / 0x10 % 0x10;
    assert raw / 0x100 == high * 0x10 + low / 0x100;
    assert raw / 0x100 % 0x10 == low / 0x100 % 0x10;
  }

  /** 0x838 is litres per second; a code whose three nibbles are all unknown reads "/". */
  lemma FlowUnitLabelExamples()
    ensures FlowUnitLabel(0x838) == "l/s"
    ensures FlowUnitLabel(0x270) == "/"
    ensures FlowUnitLabel(0x1838) == "l/s"
  {
    assert 0x838 % 0x10 == 8 && 0x838 / 0x10 % 0x10 == 3 && 0x838 / 0x100 % 0x10 == 8;
    assert PrefixOf(0x838) == "";
    assert VolumeOf(0x838) == "l";
    assert TimeBaseOf(0x838) == "s";
    assert 0x270 % 0x10 == 0 && 0x270 / 0x10 % 0x10 == 7 && 0x270 / 0x100 % 0x10 == 2;
    assert PrefixOf(0x270) == "";
    assert VolumeOf(0x270) == "";
    assert TimeBaseOf(0x270) == "";
    FlowUnitLabelLow12Bits(0x1838);
  }
}
