/** Power readings of the resource sampler (monitor.py): the engine's share
    of the CPU power `powermetrics` reports (`get_energy_metrics`), and the
    last value of the side file the background `top` sampler writes
    (`read_power_value`). The commands and `psutil.cpu_percent()` are
    inputs. */
module Energy {
  import opened Base
  import opened Text
  import Decimal
  import opened ProcessMetrics

  /** What one `get_energy_metrics` call observes: the `powermetrics`
      output, and for each output line the system CPU percent and the
      engine's pipeline output that would be read while handling that line. */
  datatype EnergyProbe = EnergyProbe(
    powermetrics: CommandOutput,
    systemCpuAt: nat -> real,
    engineAt: nat -> CommandOutput)

  const PowerMarker := "CPU Power:"

  /** The total CPU power of a `CPU Power: <n> mW` line:
      `float(line.split(':')[1].split('mW')[0].strip())`; `None` stands for
      the `ValueError`/`IndexError` the loop skips. */
  function LinePower(line: string): Option<real>
  {
    var fields := Split(line, ':');
    if |fields| < 2 then None
    else Decimal.ParseReal(Strip(BeforeFirst(fields[1], "mW")))
  }

  /** What line `i` of the output contributes: the engine's share of the
      line's power when the line carries the marker, its power parses, the
      system CPU is positive and the engine reading does not raise; `None`
      when the loop moves on to the next line. */
  function LineShare(lines: seq<string>, probe: EnergyProbe, i: nat): Option<real>
    requires i < |lines|
  {
    if !Contains(lines[i], PowerMarker) then None
    else match LinePower(lines[i])
      case None => None
      case Some(total) =>
        var systemCpu := probe.systemCpuAt(i);
        if systemCpu > 0.0 then
          match GetProcessMetrics(probe.engineAt(i))
          case Read(reading) => Some(Apportion(reading.cpu, systemCpu, total))
          case ValueError => None
        else None
  }

  /** The engine's part of the total power: its CPU percentage's share of
      the system's. */
  function Apportion(engineCpu: real, systemCpu: real, total: real): real
    requires systemCpu > 0.0
  {
    (engineCpu / systemCpu) * total
  }

  /** The share stands to the total power as the engine's CPU percentage
      to the system's, and is zero when the engine is idle. */
  lemma ApportionProportional(engineCpu: real, systemCpu: real, total: real)
    requires systemCpu > 0.0
    ensures Apportion(engineCpu, systemCpu, total) * systemCpu == engineCpu * total
    ensures engineCpu == 0.0 ==> Apportion(engineCpu, systemCpu, total) == 0.0
  {
  }

  /** What each output line contributes, in order. */
  function LineShares(lines: seq<string>, probe: EnergyProbe): (shares: seq<Option<real>>)
    ensures |shares| == |lines|
    ensures forall j :: 0 <= j < |lines| ==> shares[j] == LineShare(lines, probe, j)
  {
    seq(|lines|, j requires 0 <= j < |lines| => LineShare(lines, probe, j))
  }

  /** The line loop of `get_energy_metrics` from position `i` on: the share
      of the first line that yields one, or 0 when no line does. */
  function FirstShare(shares: seq<Option<real>>, i: nat): (r: real)
    requires i <= |shares|
    ensures (forall j :: i <= j < |shares| ==> shares[j].None?) ==> r == 0.0
    ensures forall j :: i <= j < |shares| && shares[j].Some?
                        && (forall k :: i <= k < j ==> shares[k].None?)
                        ==> r == shares[j].value
    decreases |shares| - i
  {
    if i == |shares| then 0.0
    else match shares[i]
      case Some(share) => share
      case None => FirstShare(shares, i + 1)
  }

  /** `get_energy_metrics`: the share of the first qualifying line of the
      `powermetrics` output, or 0 when none qualifies or the command fails. */
  function GetEnergyMetrics(probe: EnergyProbe): (r: real)
    ensures probe.powermetrics.SubprocessError? ==> r == 0.0
  {
    match probe.powermetrics
    case SubprocessError => 0.0
    case Output(text) =>
      var lines := Split(text, '\n');
      FirstShare(LineShares(lines, probe), 0)
  }

  /** The division is guarded: a system CPU that never exceeds zero
      yields no power at all. */
  lemma IdleSystemYieldsZero(probe: EnergyProbe)
    requires forall i: nat :: probe.systemCpuAt(i) <= 0.0
    ensures GetEnergyMetrics(probe) == 0.0
  {
    if probe.powermetrics.Output? {
      var lines := Split(probe.powermetrics.text, '\n');
      var shares := LineShares(lines, probe);
      forall j | 0 <= j < |lines|
        ensures shares[j].None?
      {
        IdleLineYieldsNothing(lines, probe, j);
      }
    }
  }

  lemma IdleLineYieldsNothing(lines: seq<string>, probe: EnergyProbe, j: nat)
    requires j < |lines|
    requires probe.systemCpuAt(j) <= 0.0
    ensures LineShare(lines, probe, j).None?
  {
  }

  /** A line without the `CPU Power:` marker is passed over: it
      contributes nothing and the loop goes on. */
  lemma UnmarkedLineSkipped(lines: seq<string>, probe: EnergyProbe, i: nat)
    requires i < |lines|
    requires !Contains(lines[i], PowerMarker)
    ensures LineShare(lines, probe, i).None?
    ensures FirstShare(LineShares(lines, probe), i) == FirstShare(LineShares(lines, probe), i + 1)
  {
  }

  /** A marked line whose power text does not parse (the `ValueError` or
      `IndexError` the loop catches) contributes nothing and the loop goes
      on. */
  lemma UnparsedPowerSkipped(lines: seq<string>, probe: EnergyProbe, i: nat)
    requires i < |lines|
    requires LinePower(lines[i]).None?
    ensures LineShare(lines, probe, i).None?
    ensures FirstShare(LineShares(lines, probe), i) == FirstShare(LineShares(lines, probe), i + 1)
  {
  }

  /** An engine pipeline that raises while a line is handled does not abort
      the reading: the line contributes nothing and the loop goes on. */
  lemma EngineErrorSkipsLine(lines: seq<string>, probe: EnergyProbe, i: nat)
    requires i < |lines|
    requires GetProcessMetrics(probe.engineAt(i)).ValueError?
    ensures LineShare(lines, probe, i).None?
    ensures FirstShare(LineShares(lines, probe), i) == FirstShare(LineShares(lines, probe), i + 1)
  {
  }

  /** The apportionment: when line `j` is the first line that yields
      anything, and it carries the marker, its power parses, the system CPU
      is positive and the engine reads `reading`, the result is the line's
      power apportioned by the engine's share of the system CPU. */
  lemma FirstQualifyingLineApportions(probe: EnergyProbe, text: string, j: nat, power: real, reading: Reading)
    requires probe.powermetrics == Output(text)
    requires j < |Split(text, '\n')|
    requires Contains(Split(text, '\n')[j], PowerMarker)
    requires LinePower(Split(text, '\n')[j]) == Some(power)
    requires probe.systemCpuAt(j) > 0.0
    requires GetProcessMetrics(probe.engineAt(j)) == Read(reading)
    requires forall i :: 0 <= i < j ==> LineShare(Split(text, '\n'), probe, i).None?
    ensures GetEnergyMetrics(probe) == Apportion(reading.cpu, probe.systemCpuAt(j), power)
  {
    var lines := Split(text, '\n');
    var share := Apportion(reading.cpu, probe.systemCpuAt(j), power);
    QualifyingLineShare(lines, probe, j, power, reading);
    FirstYieldingShare(LineShares(lines, probe), j, share);
    EnergyIsFirstShare(probe, text);
  }

  lemma EnergyIsFirstShare(probe: EnergyProbe, text: string)
    requires probe.powermetrics == Output(text)
    ensures GetEnergyMetrics(probe) == FirstShare(LineShares(Split(text, '\n'), probe), 0)
  {
  }

  /** What a qualifying line contributes. */
  lemma QualifyingLineShare(lines: seq<string>, probe: EnergyProbe, j: nat, power: real, reading: Reading)
    requires j < |lines|
    requires Contains(lines[j], PowerMarker) && LinePower(lines[j]) == Some(power)
    requires probe.systemCpuAt(j) > 0.0
    requires GetProcessMetrics(probe.engineAt(j)) == Read(reading)
    ensures LineShare(lines, probe, j) == Some(Apportion(reading.cpu, probe.systemCpuAt(j), power))
  {
  }

  /** The loop returns the share of the first line yielding one. */
  lemma FirstYieldingShare(shares: seq<Option<real>>, j: nat, share: real)
    requires j < |shares| && shares[j] == Some(share)
    requires forall i :: 0 <= i < j ==> shares[i].None?
    ensures FirstShare(shares, 0) == share
  {
  }

  /** The line `powermetrics` prints for the CPU power, `CPU Power: <n> mW`:
      the label, a colon, and the field holding the number and its unit. */
  function PowerLine(number: string): string
  {
    "CPU Power" + ":" + PowerField(number)
  }

  function PowerField(number: string): string
  {
    " " + number + " mW"
  }

  /** A `CPU Power: <n> mW` line carries the marker, and its power is the
      number `n`. */
  lemma PowerLineRead(number: string)
    requires number != [] && !IsSpace(number[0]) && !IsSpace(number[|number| - 1])
    requires ':' !in number && 'm' !in number
    ensures Contains(PowerLine(number), PowerMarker)
    ensures LinePower(PowerLine(number)) == Decimal.ParseReal(number)
  {
    PowerLineMarked(number);
    assert Split(PowerLine(number), ':') == ["CPU Power", PowerField(number)] by {
      assert ':' !in PowerField(number);
      SplitTwo("CPU Power", PowerField(number), ':');
    }
    PowerFieldCut(number);
    PaddedStrip(number);
  }

  lemma PowerLineMarked(number: string)
    ensures Contains(PowerLine(number), PowerMarker)
  {
    var line := PowerLine(number);
    assert OccursAt(line, PowerMarker, 0) by {
      assert line[..|PowerMarker|] == PowerMarker;
    }
  }

  /** Cutting the power field at its unit leaves the padded number. */
  lemma PowerFieldCut(number: string)
    requires 'm' !in number
    ensures BeforeFirst(PowerField(number), "mW") == " " + number + " "
  {
    var spaced := " " + number + " ";
    assert PowerField(number) == spaced + "mW";
    BeforeFirstAt(spaced, "mW");
  }

  /** One space either side strips away. */
  lemma PaddedStrip(number: string)
    requires number != [] && !IsSpace(number[0]) && !IsSpace(number[|number| - 1])
    ensures Strip(" " + number + " ") == number
  {
    var t := number + " ";
    assert " " + number + " " == " " + t;
    LeadingSpaceStrips(t);
    TrailingSpaceStrips(number);
  }

  /** The power of a line `powermetrics` prints with a fixed-point number
      is that number. */
  lemma FixedPowerLineRead(whole: nat, frac: string)
    requires Decimal.AllDigits(frac)
    ensures var line := PowerLine(Decimal.FixedText(whole, frac));
      Contains(line, PowerMarker) && LinePower(line) == Some(Decimal.FixedValue(whole, frac))
  {
    Decimal.FixedAvoid(whole, frac, ':');
    Decimal.FixedAvoid(whole, frac, 'm');
    Decimal.ParseFixed(whole, frac);
    PowerLineRead(Decimal.FixedText(whole, frac));
  }

  // ---------------------------------------------------------------------
  // read_power_value
  // ---------------------------------------------------------------------

  /** Python's `f.readlines()`: lines keep their newline, the last one may
      lack it, and empty text has no lines. */
  function ReadLines(text: string): (lines: seq<string>)
    ensures forall k :: 0 <= k < |lines| ==> lines[k] != []
    ensures forall k :: 0 <= k < |lines| - 1 ==> lines[k][|lines[k]| - 1] == '\n'
    decreases |text|
  {
    if text == [] then []
    else if '\n' !in text then [text]
    else
      var i := IndexOf(text, '\n');
      [text[..i + 1]] + ReadLines(text[i + 1..])
  }

  function Concat(lines: seq<string>): string
  {
    if lines == [] then [] else lines[0] + Concat(lines[1..])
  }

  /** Reading the lines loses nothing: they concatenate to the text. */
  lemma {:induction false} ReadLinesConcat(text: string)
    ensures Concat(ReadLines(text)) == text
    decreases |text|
  {
    if text != [] && '\n' in text {
      var i := IndexOf(text, '\n');
      ReadLinesConcat(text[i + 1..]);
      assert text == text[..i + 1] + text[i + 1..];
    }
  }

  /** `read_power_value` on the side file (`None` when it does not exist):
      the number on its last line, or 0 when there is none or it does not
      parse. */
  function ReadPowerValue(file: Option<string>): (r: real)
    ensures file.None? ==> r == 0.0
    ensures file == Some([]) ==> r == 0.0
  {
    match file
    case None => 0.0
    case Some(text) =>
      var lines := ReadLines(text);
      if lines == [] then 0.0 else Decimal.ParseReal(lines[|lines| - 1]).GetOr(0.0)
  }

  /** Appending one complete line to a file of complete lines makes it the
      last line read. */
  lemma {:induction false} ReadLinesAppend(text: string, line: string)
    requires text == [] || text[|text| - 1] == '\n'
    requires line != [] && line[|line| - 1] == '\n' && '\n' !in line[..|line| - 1]
    ensures ReadLines(text + line) == ReadLines(text) + [line]
    decreases |text|
  {
    if text == [] {
      assert text + line == line;
      ReadLinesSingle(line);
    } else {
      var i := FirstLineEnd(text, line);
      var rest := text[i + 1..];
      ReadLinesAppend(rest, line);
    }
  }

  /** One complete line reads as itself. */
  lemma ReadLinesSingle(line: string)
    requires line != [] && line[|line| - 1] == '\n' && '\n' !in line[..|line| - 1]
    ensures ReadLines(line) == [line]
  {
    assert '\n' in line;
    IndexOfIs(line, '\n', |line| - 1);
    assert line[..|line|] == line;
    assert line[|line|..] == [];
    assert ReadLines(line) == [line] + ReadLines([]);
  }

  /** The first line of a text ending in a newline is also the first line
      once more is appended, and the rest still ends in a newline. */
  lemma FirstLineEnd(text: string, line: string) returns (i: nat)
    requires text != [] && text[|text| - 1] == '\n'
    ensures i < |text|
    ensures text[i + 1..] == [] || text[|text| - 1] == '\n'
    ensures ReadLines(text) == [text[..i + 1]] + ReadLines(text[i + 1..])
    ensures ReadLines(text + line) == [text[..i + 1]] + ReadLines(text[i + 1..] + line)
  {
    assert '\n' in text;
    i := IndexOf(text, '\n');
    var whole := text + line;
    assert whole[..i] == text[..i];
    assert whole[i] == '\n';
    assert '\n' in whole;
    IndexOfIs(whole, '\n', i);
    assert whole[..i + 1] == text[..i + 1];
    assert whole[i + 1..] == text[i + 1..] + line;
  }

  /** The background sampler prints each power value it scrapes on a line
      of its own: the value read is the one printed last. */
  lemma LastAppendedValueIsRead(text: string, whole: nat, frac: string)
    requires Decimal.AllDigits(frac)
    requires text == [] || text[|text| - 1] == '\n'
    ensures ReadPowerValue(Some(text + Decimal.FixedText(whole, frac) + "\n"))
            == Decimal.FixedValue(whole, frac)
  {
    Decimal.FixedAvoid(whole, frac, '\n');
    Decimal.ParseFixed(whole, frac);
    LastAppendedNumberIsRead(text, Decimal.FixedText(whole, frac), Decimal.FixedValue(whole, frac));
  }

  /** A number appended as the last line is the value read. */
  lemma LastAppendedNumberIsRead(text: string, number: string, v: real)
    requires text == [] || text[|text| - 1] == '\n'
    requires number != [] && Decimal.IsDigit(number[0]) && '\n' !in number
    requires Decimal.ParseReal(number) == Some(v)
    ensures ReadPowerValue(Some(text + number + "\n")) == v
  {
    AppendedLineLast(text, number);
    NumberLineParses(number, v);
    LastLineRead(text + number + "\n", number + "\n");
  }

  lemma AppendedLineLast(text: string, number: string)
    requires text == [] || text[|text| - 1] == '\n'
    requires '\n' !in number
    ensures ReadLines(text + number + "\n") == ReadLines(text) + [number + "\n"]
  {
    var line := number + "\n";
    NewlineLine(number);
    ReadLinesAppend(text, line);
    assert text + number + "\n" == text + line;
  }

  /** A number followed by a newline reads as the number. */
  lemma NumberLineParses(number: string, v: real)
    requires number != [] && Decimal.IsDigit(number[0])
    requires Decimal.ParseReal(number) == Some(v)
    ensures Decimal.ParseReal(number + "\n") == Some(v)
  {
    StripNewline(number);
    Decimal.ParseRealStrip(number + "\n", number);
  }

  /** A newline-free text with its newline forms one complete line. */
  lemma NewlineLine(number: string)
    requires '\n' !in number
    ensures var line := number + "\n";
      line != [] && line[|line| - 1] == '\n' && '\n' !in line[..|line| - 1]
  {
    var line := number + "\n";
    assert line[..|line| - 1] == number;
  }

  /** The value read is the one on the last line. */
  lemma LastLineRead(text: string, line: string)
    requires ReadLines(text) != [] && ReadLines(text)[|ReadLines(text)| - 1] == line
    ensures ReadPowerValue(Some(text)) == Decimal.ParseReal(line).GetOr(0.0)
  {
  }

  /** A trailing newline does not change what a number strips to. */
  lemma StripNewline(digits: string)
    requires digits != [] && Decimal.IsDigit(digits[0])
    ensures Strip(digits + "\n") == Strip(digits)
  {
    var line := digits + "\n";
    assert StripStart(line) == line by {
      assert line[0] == digits[0];
    }
    assert StripStart(digits) == digits;
    assert StripEnd(line) == StripEnd(digits) by {
      assert line[..|line| - 1] == digits;
      assert IsSpace(line[|line| - 1]);
    }
  }
}
