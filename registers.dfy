/**
 * The pure part of the Sensorbox 1.5 client: turning the block of input registers of the
 * power module into the four power readings.
 */
module Registers {
  import opened Results
  import opened Binary32

  /** Nominal phase voltage; the device reports current, power is current * 230 V. */
  const NominalVoltage: real := 230.0

  /** Word offsets of the three phase currents in the register block. */
  const L1Offset: nat := 0x10
  const L2Offset: nat := 0x12
  const L3Offset: nat := 0x0E

  /** Registers needed to cover every offset: the highest, 0x12, plus its low word. */
  const MinBlockLength: nat := L2Offset + 2

  const L1Key: string := "l1_power"
  const L2Key: string := "l2_power"
  const L3Key: string := "l3_power"
  const TotalKey: string := "total_power"
  const PowerKeys: set<string> := {L1Key, L2Key, L3Key, TotalKey}

  /** Indexing past the end of the register list (Python's IndexError). */
  datatype DecodeError = IndexOutOfRange

  /**
   * A "Read Input Registers" request (Modbus function code 0x04, section 6.4 of the Modbus
   * Application Protocol Specification V1.1b3): starting address, quantity, unit id.
   */
  datatype ReadRequest = ReadInputRegisters(address: nat, count: nat, unit: nat)

  /** The one request the client issues: 20 registers from address 0 of unit 10. */
  const PowerModuleRequest: ReadRequest := ReadInputRegisters(0, 20, 10)

  /**
   * What the client library hands back for a request: the register words, a Modbus
   * exception response (`isError()` is true), or a raised connection error.
   */
  datatype ReadResponse = Registers(words: seq<Word16>) | ExceptionResponse(code: nat) | ConnectionLost

  datatype ReadError = DecodeFailed(decode: DecodeError) | ConnectionFailed

  /**
   * `read_float`: the binary32 value whose high 16 bits are `registers[index]` and whose
   * low 16 bits are `registers[index + 1]`; an index error when either is missing.
   */
  function ReadFloat(registers: seq<Word16>, index: nat): (r: Result<Float, DecodeError>)
    ensures r.Success? <==> index + 1 < |registers|
  {
    if index + 1 < |registers| then Success(Decode(Word32Of(registers[index], registers[index + 1])))
    else Failure(IndexOutOfRange)
  }

  /** One phase: the float at `offset`, times 230, times the calibration factor. */
  function PhasePower(registers: seq<Word16>, offset: nat, calibration: real): (r: Result<Float, DecodeError>)
    ensures r.Success? <==> offset + 1 < |registers|
  {
    match ReadFloat(registers, offset)
    case Failure(e) => Failure(e)
    case Success(f) => Success(Scale(Scale(f, NominalVoltage), calibration))
  }

  /** The reading dictionary built from three phase powers; the total is their sum. */
  function Readings(l1: Float, l2: Float, l3: Float): (m: map<string, Float>)
    ensures m.Keys == PowerKeys
    ensures m[L1Key] == l1 && m[L2Key] == l2 && m[L3Key] == l3
    ensures m[TotalKey] == Add(Add(l1, l2), l3)
  {
    map[L1Key := l1, L2Key := l2, L3Key := l3, TotalKey := Add(Add(l1, l2), l3)]
  }

  /**
   * `parse_power_module`: L1 from words 0x10/0x11, L2 from 0x12/0x13, L3 from 0x0E/0x0F,
   * evaluated in that order, so the first failure (L1 or L2) is the one raised.
   */
  function ParsePowerModule(registers: seq<Word16>, calibration: real): (r: Result<map<string, Float>, DecodeError>)
    ensures r.Success? <==> |registers| >= MinBlockLength
    ensures r.Success? ==> r.value.Keys == PowerKeys
    ensures r.Success? ==> r.value[L1Key] == Scale(ReadFloat(registers, L1Offset).value, 230.0 * calibration)
    ensures r.Success? ==> r.value[L2Key] == Scale(ReadFloat(registers, L2Offset).value, 230.0 * calibration)
    ensures r.Success? ==> r.value[L3Key] == Scale(ReadFloat(registers, L3Offset).value, 230.0 * calibration)
    ensures r.Success? ==> r.value[TotalKey] == Add(Add(r.value[L1Key], r.value[L2Key]), r.value[L3Key])
  {
    match PhasePower(registers, L1Offset, calibration)
    case Failure(e) => Failure(e)
    case Success(l1) =>
      match PhasePower(registers, L2Offset, calibration)
      case Failure(e) => Failure(e)
      case Success(l2) =>
        match PhasePower(registers, L3Offset, calibration)
        case Failure(e) => Failure(e)
        case Success(l3) =>
          PhaseLinear(registers, L1Offset, calibration);
          PhaseLinear(registers, L2Offset, calibration);
          PhaseLinear(registers, L3Offset, calibration);
          Success(Readings(l1, l2, l3))
  }

  /**
   * `read_power_module` after the request has been answered: an exception response gives
   * the empty dictionary (no retry), registers are parsed, a raised connection error
   * propagates.
   */
  function PowerModuleResult(response: ReadResponse, calibration: real): (r: Result<map<string, Float>, ReadError>)
    ensures response.ExceptionResponse? ==> r == Success(map[])
    ensures response.ConnectionLost? ==> r == Failure(ConnectionFailed)
    ensures response.Registers? ==> (r.Success? <==> |response.words| >= MinBlockLength)
    ensures response.Registers? && r.Success? ==> r.value == ParsePowerModule(response.words, calibration).value
    ensures response.Registers? && r.Success? ==> r.value.Keys == PowerKeys
    ensures response.Registers? && r.Success? ==>
      r.value[L1Key] == Scale(ReadFloat(response.words, L1Offset).value, 230.0 * calibration)
    ensures response.Registers? && r.Success? ==>
      r.value[L2Key] == Scale(ReadFloat(response.words, L2Offset).value, 230.0 * calibration)
    ensures response.Registers? && r.Success? ==>
      r.value[L3Key] == Scale(ReadFloat(response.words, L3Offset).value, 230.0 * calibration)
  {
    match response
    case ExceptionResponse(_) => Success(map[])
    case ConnectionLost => Failure(ConnectionFailed)
    case Registers(words) => ParsePowerModule(words, calibration).MapFailure(e => DecodeFailed(e))
  }

  /** `read_float` reads exactly the words at `index` (high) and `index + 1` (low). */
  lemma ReadFloatWords(registers: seq<Word16>, index: nat)
    requires index + 1 < |registers|
    ensures ReadFloat(registers, index) == Success(Decode((registers[index] as int) * 0x1_0000 + registers[index + 1]))
  {
  }

  /** Each phase is the decoded float times the single factor 230 * calibration. */
  lemma PhaseLinear(registers: seq<Word16>, offset: nat, calibration: real)
    requires offset + 1 < |registers|
    ensures PhasePower(registers, offset, calibration).value
         == Scale(ReadFloat(registers, offset).value, 230.0 * calibration)
  {
    var f := ReadFloat(registers, offset).value;
    assert PhasePower(registers, offset, calibration).value == Scale(Scale(f, NominalVoltage), calibration);
    PhaseFactor(f, calibration);
  }

  /**
   * Scaling by the nominal voltage and then by the calibration is one scaling by their
   * product; for a finite float that is `value * (230 * calibration)`, linear in the calibration.
   */
  lemma PhaseFactor(f: Float, calibration: real)
    ensures Scale(Scale(f, NominalVoltage), calibration) == Scale(f, 230.0 * calibration)
    ensures f.Finite? ==> Scale(Scale(f, NominalVoltage), calibration).value == f.value * (230.0 * calibration)
  {
    ScaleScale(f, NominalVoltage, calibration);
    if f.Finite? {
      ScaleFiniteTwice(f, NominalVoltage, calibration);
    }
  }

  /** `read_float` at `index` sees only the words at `index` and `index + 1`. */
  lemma ReadFloatLocal(registers: seq<Word16>, registers': seq<Word16>, index: nat)
    requires index + 1 < |registers| && index + 1 < |registers'|
    requires registers[index] == registers'[index] && registers[index + 1] == registers'[index + 1]
    ensures ReadFloat(registers, index) == ReadFloat(registers', index)
  {
  }

  /** L1 depends only on words 0x10/0x11, L2 only on 0x12/0x13, L3 only on 0x0E/0x0F. */
  lemma PhaseWordsOnly(registers: seq<Word16>, registers': seq<Word16>, calibration: real)
    requires |registers| >= MinBlockLength && |registers'| >= MinBlockLength
    ensures registers[0x10] == registers'[0x10] && registers[0x11] == registers'[0x11] ==>
      ParsePowerModule(registers, calibration).value[L1Key] == ParsePowerModule(registers', calibration).value[L1Key]
    ensures registers[0x12] == registers'[0x12] && registers[0x13] == registers'[0x13] ==>
      ParsePowerModule(registers, calibration).value[L2Key] == ParsePowerModule(registers', calibration).value[L2Key]
    ensures registers[0x0E] == registers'[0x0E] && registers[0x0F] == registers'[0x0F] ==>
      ParsePowerModule(registers, calibration).value[L3Key] == ParsePowerModule(registers', calibration).value[L3Key]
  {
    var p, p' := ParsePowerModule(registers, calibration).value, ParsePowerModule(registers', calibration).value;
    assert p[L1Key] == PhasePower(registers, L1Offset, calibration).value;
    assert p'[L1Key] == PhasePower(registers', L1Offset, calibration).value;
    assert p[L2Key] == PhasePower(registers, L2Offset, calibration).value;
    assert p'[L2Key] == PhasePower(registers', L2Offset, calibration).value;
    assert p[L3Key] == PhasePower(registers, L3Offset, calibration).value;
    assert p'[L3Key] == PhasePower(registers', L3Offset, calibration).value;
  }

  /**
   * Registers outside 0x0E..0x13 do not matter: two blocks of at least 20 words that agree
   * there (whatever else they hold, whatever their length) parse to the same readings.
   */
  lemma OtherWordsIrrelevant(registers: seq<Word16>, registers': seq<Word16>, calibration: real)
    requires |registers| >= MinBlockLength && |registers'| >= MinBlockLength
    requires forall i :: L3Offset <= i < MinBlockLength ==> registers[i] == registers'[i]
    ensures ParsePowerModule(registers, calibration) == ParsePowerModule(registers', calibration)
  {
    ReadFloatLocal(registers, registers', L1Offset);
    ReadFloatLocal(registers, registers', L2Offset);
    ReadFloatLocal(registers, registers', L3Offset);
  }

  /**
   * Multiplying the calibration by any factor k multiplies every reading, the total
   * included, by k (so doubling it doubles them all).
   */
  lemma CalibrationScales(registers: seq<Word16>, calibration: real, k: real)
    requires |registers| >= MinBlockLength
    ensures ParsePowerModule(registers, calibration * k).value
         == ScaleReadings(ParsePowerModule(registers, calibration).value, k)
  {
    var p := ParsePowerModule(registers, calibration).value;
    var q := ParsePowerModule(registers, calibration * k).value;
    var f1 := ReadFloat(registers, L1Offset).value;
    var f2 := ReadFloat(registers, L2Offset).value;
    var f3 := ReadFloat(registers, L3Offset).value;
    ScaleScale(Scale(f1, NominalVoltage), calibration, k);
    ScaleScale(Scale(f2, NominalVoltage), calibration, k);
    ScaleScale(Scale(f3, NominalVoltage), calibration, k);
    ScaleAdd(p[L1Key], p[L2Key], k);
    ScaleAdd(Add(p[L1Key], p[L2Key]), p[L3Key], k);
    assert q.Keys == ScaleReadings(p, k).Keys;
  }

  /** Every reading of a dictionary multiplied by k. */
  function ScaleReadings(m: map<string, Float>, k: real): (m': map<string, Float>)
    ensures m'.Keys == m.Keys
  {
    map key | key in m :: Scale(m[key], k)
  }

  /** Words 0x3FC0, 0x0000 at offset 0x10 (the float 1.5) with calibration 1 give L1 = 345 W. */
  lemma L1Example(registers: seq<Word16>)
    requires |registers| == 20 && registers[0x10] == 0x3FC0 && registers[0x11] == 0
    ensures ParsePowerModule(registers, 1.0).value[L1Key] == Finite(345.0)
  {
    assert Word32Of(0x3FC0, 0) == 0x3FC0_0000;
    DecodeOnePointFive();
  }
}
