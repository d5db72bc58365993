/** Process-level CPU and memory of an engine (monitor.py
    `get_process_metrics`): the engine's search substring, and the reading
    of the `ps | grep | awk` pipeline's `"<cpu>,<mem KB>"` output. The
    pipeline itself is not modelled: its captured output is the input. */
module ProcessMetrics {
  import opened Base
  import opened Text
  import Decimal

  /** The captured result of a shell command: its standard output, or the
      `subprocess.SubprocessError` raised for a non-zero exit. */
  datatype CommandOutput = Output(text: string) | SubprocessError

  /** CPU percent and resident memory in MB summed over matching processes. */
  datatype Reading = Reading(cpu: real, memoryMb: real)

  /** What `get_process_metrics` hands back: a reading, or the `ValueError`
      it lets escape (only `SubprocessError` is caught). */
  datatype ReadResult = Read(reading: Reading) | ValueError

  const Zero := Reading(0.0, 0.0)

  /** The substring `ps aux` lines are filtered by; engines outside the
      table fall back to "Docker". */
  function SearchPattern(engine: string): (p: string)
    ensures p in {"Docker", "Podman", "OrbStack", "Rancher", "colima"}
    ensures engine !in {"docker-desktop", "podman-desktop", "orbstack", "rancher-desktop", "colima"} ==>
              p == "Docker"
  {
    if engine == "docker-desktop" then "Docker"
    else if engine == "podman-desktop" then "Podman"
    else if engine == "orbstack" then "OrbStack"
    else if engine == "rancher-desktop" then "Rancher"
    else if engine == "colima" then "colima"
    else "Docker"
  }

  /** `cpu, mem = map(float, result.split(','))` followed by the KB to MB
      conversion: exactly two comma-free fields, both numbers. */
  function ParsePair(result: string): ReadResult
  {
    ParseFields(Split(result, ','))
  }

  /** The two comma-separated fields, converted; any other number of
      fields is the `ValueError` of the unpacking. */
  function ParseFields(fields: seq<string>): ReadResult
  {
    if |fields| != 2 then ValueError
    else match (Decimal.ParseReal(fields[0]), Decimal.ParseReal(fields[1]))
      case (Some(cpu), Some(mem)) => Read(Reading(cpu, mem / 1024.0))
      case _ => ValueError
  }

  /** `get_process_metrics` on the pipeline's outcome: a failed pipeline or
      blank output reads as zero; anything else must parse. */
  function GetProcessMetrics(out: CommandOutput): (r: ReadResult)
    ensures out.SubprocessError? ==> r == Read(Zero)
    ensures out.Output? && Strip(out.text) == [] ==> r == Read(Zero)
    ensures r.ValueError? ==> out.Output? && Strip(out.text) != []
  {
    match out
    case SubprocessError => Read(Zero)
    case Output(text) =>
      var result := Strip(text);
      if result == [] then Read(Zero) else ParsePair(result)
  }

  /** Two numeric fields joined by a comma read as CPU percent and memory
      in MB, the memory field taken as KB. */
  lemma ParsePairFields(c: string, m: string, cpu: real, memKb: real)
    requires ',' !in c && ',' !in m
    requires Decimal.ParseReal(c) == Some(cpu) && Decimal.ParseReal(m) == Some(memKb)
    ensures ParsePair(c + [','] + m) == Read(Reading(cpu, memKb / 1024.0))
  {
    SplitTwo(c, m, ',');
    ParseSplitFields(c + [','] + m, c, m, cpu, memKb);
  }

  lemma ParseSplitFields(line: string, c: string, m: string, cpu: real, memKb: real)
    requires Split(line, ',') == [c, m]
    requires Decimal.ParseReal(c) == Some(cpu) && Decimal.ParseReal(m) == Some(memKb)
    ensures ParsePair(line) == Read(Reading(cpu, memKb / 1024.0))
  {
    assert ParsePair(line) == ParseFields([c, m]);
    FieldsRead(c, m, cpu, memKb);
  }

  lemma FieldsRead(c: string, m: string, cpu: real, memKb: real)
    requires Decimal.ParseReal(c) == Some(cpu) && Decimal.ParseReal(m) == Some(memKb)
    ensures ParseFields([c, m]) == Read(Reading(cpu, memKb / 1024.0))
  {
    var fields := [c, m];
    assert |fields| == 2 && fields[0] == c && fields[1] == m;
  }

  /** The line awk prints for the totals, `<cpu>,<mem>` and a newline,
      each total in fixed-point text, reads back as those totals, memory
      converted to MB. */
  lemma TotalsRead(cpuWhole: nat, cpuFrac: string, memWhole: nat, memFrac: string)
    requires Decimal.AllDigits(cpuFrac) && Decimal.AllDigits(memFrac)
    ensures GetProcessMetrics(Output(Decimal.FixedText(cpuWhole, cpuFrac) + ","
                                     + Decimal.FixedText(memWhole, memFrac) + "\n"))
            == Read(Reading(Decimal.FixedValue(cpuWhole, cpuFrac),
                            Decimal.FixedValue(memWhole, memFrac) / 1024.0))
  {
    FixedTextFacts(cpuWhole, cpuFrac);
    FixedTextFacts(memWhole, memFrac);
    TotalsTextRead(Decimal.FixedText(cpuWhole, cpuFrac), Decimal.FixedText(memWhole, memFrac),
                   Decimal.FixedValue(cpuWhole, cpuFrac), Decimal.FixedValue(memWhole, memFrac));
  }

  /** Two comma-free numbers, the first starting and the second ending
      with a digit, joined by a comma and followed by a newline, read as
      CPU percent and memory in MB. */
  lemma TotalsTextRead(c: string, m: string, cpu: real, memKb: real)
    requires ',' !in c && ',' !in m
    requires c != [] && Decimal.IsDigit(c[0])
    requires m != [] && Decimal.IsDigit(m[|m| - 1])
    requires Decimal.ParseReal(c) == Some(cpu) && Decimal.ParseReal(m) == Some(memKb)
    ensures GetProcessMetrics(Output(c + "," + m + "\n")) == Read(Reading(cpu, memKb / 1024.0))
  {
    var line := c + "," + m;
    ParsePairFields(c, m, cpu, memKb);
    TotalsLineStrips(c, m);
    StrippedOutput(line + "\n", line);
  }

  /** Fixed-point text holds no comma and reads back as its number. */
  lemma FixedTextFacts(whole: nat, frac: string)
    requires Decimal.AllDigits(frac)
    ensures ',' !in Decimal.FixedText(whole, frac)
    ensures Decimal.ParseReal(Decimal.FixedText(whole, frac)) == Some(Decimal.FixedValue(whole, frac))
  {
    Decimal.FixedAvoid(whole, frac, ',');
    Decimal.ParseFixed(whole, frac);
  }

  /** Two totals that start and end with a digit, joined by a comma and
      followed by a newline, strip to the joined totals. */
  lemma TotalsLineStrips(c: string, m: string)
    requires c != [] && Decimal.IsDigit(c[0])
    requires m != [] && Decimal.IsDigit(m[|m| - 1])
    ensures Strip(c + "," + m + "\n") == c + "," + m
  {
    var line := c + "," + m;
    assert Decimal.IsDigit(line[0]) && Decimal.IsDigit(line[|line| - 1]);
    assert StripStart(line + "\n") == line + "\n";
    assert (line + "\n")[..|line|] == line;
  }

  /** Output that strips to a non-blank line is read as that line. */
  lemma StrippedOutput(text: string, line: string)
    requires Strip(text) == line && line != []
    ensures GetProcessMetrics(Output(text)) == ParsePair(line)
  {
  }

  /** A non-blank reading that succeeds came from exactly one comma
      joining two numbers: the stripped output is `<cpu>,<mem KB>` with
      both fields parsed, and the reading is those numbers, memory in MB.
      The converse of `ParsePairFields`: no malformed line degrades to a
      reading. */
  lemma ReadComesFromPair(text: string) returns (c: string, m: string)
    requires Strip(text) != [] && GetProcessMetrics(Output(text)).Read?
    ensures ',' !in c && ',' !in m && Strip(text) == c + [','] + m
    ensures Decimal.ParseReal(c).Some? && Decimal.ParseReal(m).Some?
    ensures GetProcessMetrics(Output(text))
            == Read(Reading(Decimal.ParseReal(c).value, Decimal.ParseReal(m).value / 1024.0))
  {
    StrippedOutput(text, Strip(text));
    c, m := PairReadBack(Strip(text));
  }

  /** A line that parses is two comma-free numbers joined by a comma. */
  lemma PairReadBack(line: string) returns (c: string, m: string)
    requires ParsePair(line).Read?
    ensures ',' !in c && ',' !in m && line == c + [','] + m
    ensures Decimal.ParseReal(c).Some? && Decimal.ParseReal(m).Some?
    ensures ParsePair(line)
            == Read(Reading(Decimal.ParseReal(c).value, Decimal.ParseReal(m).value / 1024.0))
  {
    var fields := Split(line, ',');
    FieldsReadBack(fields);
    c, m := fields[0], fields[1];
    JoinTwo(fields, ',');
  }

  /** Fields that convert are exactly two numbers. */
  lemma FieldsReadBack(fields: seq<string>)
    requires ParseFields(fields).Read?
    ensures |fields| == 2
    ensures Decimal.ParseReal(fields[0]).Some? && Decimal.ParseReal(fields[1]).Some?
    ensures ParseFields(fields) == Read(Reading(Decimal.ParseReal(fields[0]).value,
                                                Decimal.ParseReal(fields[1]).value / 1024.0))
  {
  }

  lemma JoinTwo(parts: seq<string>, sep: char)
    requires |parts| == 2
    ensures Join(parts, sep) == parts[0] + [sep] + parts[1]
  {
    assert Join(parts[1..], sep) == parts[1];
  }

  /** Two numbers joined by one comma: the only shape of stripped output
      that reads. */
  ghost predicate NumberPair(line: string)
  {
    exists c: string, m: string :: ',' !in c && ',' !in m && line == c + [','] + m
      && Decimal.ParseReal(c).Some? && Decimal.ParseReal(m).Some?
  }

  /** Non-blank output reads exactly when it strips to two numbers joined
      by one comma; any other non-blank output raises `ValueError`. */
  lemma ReadsExactlyPairs(text: string)
    requires Strip(text) != []
    ensures GetProcessMetrics(Output(text)).Read? <==> NumberPair(Strip(text))
    ensures !NumberPair(Strip(text)) ==> GetProcessMetrics(Output(text)) == ValueError
  {
    var line := Strip(text);
    if GetProcessMetrics(Output(text)).Read? {
      var c, m := ReadComesFromPair(text);
    } else if NumberPair(line) {
      var c: string, m: string :| ',' !in c && ',' !in m && line == c + [','] + m
        && Decimal.ParseReal(c).Some? && Decimal.ParseReal(m).Some?;
      ParsePairFields(c, m, Decimal.ParseReal(c).value, Decimal.ParseReal(m).value);
      StrippedOutput(text, line);
      assert false;
    }
  }

  /** When no process matches, awk's END block prints the two unset totals
      as empty strings, so the output is a lone comma, and the pipeline's
      exit status is awk's (0): the reading raises `ValueError` instead of
      degrading to zero. */
  lemma NoMatchingProcessRaises()
    ensures GetProcessMetrics(Output(",\n")) == ValueError
  {
    CommaLineStrips();
    StrippedOutput(",\n", ",");
    LoneCommaRaises();
  }

  lemma CommaLineStrips()
    ensures Strip(",\n") == ","
  {
    assert StripStart(",\n") == ",\n";
    assert StripEnd(",\n") == StripEnd(",") by {
      assert IsSpace('\n');
      assert (",\n")[..1] == ",";
    }
    assert StripEnd(",") == ",";
  }

  lemma LoneCommaRaises()
    ensures ParsePair(",") == ValueError
  {
    LoneCommaFields();
    EmptyFieldFails();
  }

  lemma LoneCommaFields()
    ensures Split(",", ',') == ["", ""]
  {
    SplitJoin(["", ""], ',');
    assert Join(["", ""], ',') == ",";
  }

  lemma EmptyFieldFails()
    ensures Decimal.ParseReal("") == None
  {
    assert Strip("") == [];
  }
}
