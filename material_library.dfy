/** The material-library parser: `newmtl` starts a material, `Ka`, `Kd`,
    `Ks` and `Ke` set its ambient, diffuse, specular and emission colours,
    and a material is saved when the next one starts or the input ends. */
module MaterialLibrary {
  import opened MeshTypes

  /** One line of a material file: the whitespace its raw text starts with, and its tokens. */
  datatype MtlLine = MtlLine(lead: string, tokens: seq<Token>)

  /** The materials saved so far, by name, and how many materials were made
      (the serial the next one gets). */
  datatype Registry = Registry(byName: map<Token, Material>, made: nat)

  /** The material being read: its name and its colours in the order
      ambient, diffuse, specular, emission. */
  datatype Pending = Pending(name: Token, colors: seq<Color>)

  datatype State = State(reg: Registry, pending: Option<Pending>)

  const Black: Color := [0.0, 0.0, 0.0, 0.0]

  /** The colours of a material that `newmtl` has just started. */
  const Blank: seq<Color> := [Black, Black, Black, Black]

  predicate Valid(st: State)
  {
    st.pending.Some? ==> |st.pending.value.colors| == 4
  }

  predicate IsColorKeyword(t: Token)
  {
    t == Word("Ka") || t == Word("Kd") || t == Word("Ks") || t == Word("Ke")
  }

  /** The slot table the parser keys on a colour record's second letter. */
  const SlotLetters: map<char, nat> := map['a' := 0, 'd' := 1, 's' := 2, 'e' := 3]

  /** The colour slot a record sets, read from its keyword's second letter. */
  function ColorSlot(keyword: Token): (slot: nat)
    requires IsColorKeyword(keyword)
    ensures slot < 4
    ensures keyword == Word("Ka") <==> slot == 0
    ensures keyword == Word("Kd") <==> slot == 1
    ensures keyword == Word("Ks") <==> slot == 2
    ensures keyword == Word("Ke") <==> slot == 3
  {
    SlotLetters[keyword.text[1]]
  }

  /** The second character of a line's raw text. */
  function SecondChar(line: MtlLine): char
    requires |line.tokens| > 0 && IsColorKeyword(line.tokens[0])
  {
    var raw := line.lead + line.tokens[0].text;
    raw[1]
  }

  /** The slot as the source picks it: the RAW line's second character looked
      up in the slot table, which is the keyword's second letter only when the
      line does not start with whitespace. */
  function ColorSlotAsWritten(line: MtlLine): (r: Result<nat>)
    requires |line.tokens| > 0 && IsColorKeyword(line.tokens[0])
    ensures r.Success? <==> SecondChar(line) in {'a', 'd', 's', 'e'}
    ensures r.Success? ==> r.value < 4
    ensures r.Failure? ==> r.error == BadColorKey
  {
    var c := SecondChar(line);
    if c in SlotLetters then Success(SlotLetters[c]) else Failure(BadColorKey)
  }

  predicate IsBlank(c: char)
  {
    c == ' ' || c == '\t'
  }

  /** Without leading whitespace the source's slot is the keyword's. */
  lemma SlotAsWrittenUnindented(line: MtlLine)
    requires |line.tokens| > 0 && IsColorKeyword(line.tokens[0])
    requires line.lead == ""
    ensures ColorSlotAsWritten(line) == Success(ColorSlot(line.tokens[0]))
  {
  }

  /** With leading whitespace the source's lookup fails: an indented colour
      record aborts the whole library. */
  lemma SlotAsWrittenIndented(line: MtlLine)
    requires |line.tokens| > 0 && IsColorKeyword(line.tokens[0])
    requires line.lead != [] && forall k :: 0 <= k < |line.lead| ==> IsBlank(line.lead[k])
    ensures ColorSlotAsWritten(line) == Failure(BadColorKey)
  {
    if |line.lead| == 1 {
      assert SecondChar(line) == 'K';
    } else {
      assert SecondChar(line) == line.lead[1];
    }
  }

  /** A concrete indented record: `  Kd 1 0 0` sets no slot as written,
      where the keyword says diffuse. */
  lemma IndentedDiffuseRejected()
    ensures ColorSlotAsWritten(MtlLine("  ", [Word("Kd"), Num(1.0), Num(0.0), Num(0.0)])) == Failure(BadColorKey)
    ensures ColorSlot(Word("Kd")) == 1
  {
    SlotAsWrittenIndented(MtlLine("  ", [Word("Kd"), Num(1.0), Num(0.0), Num(0.0)]));
  }

  /** The colour values of a record, converted one by one with float(). */
  function ReadReals(ts: seq<Token>): (r: Result<seq<real>>)
    ensures r.Success? <==> forall k :: 0 <= k < |ts| ==> ts[k].Num?
    ensures r.Success? ==> |r.value| == |ts| && forall k :: 0 <= k < |ts| ==> r.value[k] == ts[k].value
    ensures r.Failure? ==> r.error == BadNumber
  {
    if ts == [] then Success([])
    else if !ts[0].Num? then Failure(BadNumber)
    else match ReadReals(ts[1..])
      case Failure(e) => Failure(e)
      case Success(rest) => Success([ts[0].value] + rest)
  }

  /** Colour expansion: one value is replicated into red, green and blue,
      three values get alpha 0, and any other count is kept as it is. */
  function ExpandColor(c: seq<real>): (r: Color)
    ensures |c| == 1 ==> r == [c[0], c[0], c[0], 0.0]
    ensures |c| == 3 ==> r == c + [0.0]
    ensures |c| != 1 && |c| != 3 ==> r == c
    ensures |r| == 4 <==> |c| == 1 || |c| == 3 || |c| == 4
  {
    if |c| == 1 then (c + c + c) + [0.0]
    else if |c| == 3 then c + [0.0]
    else c
  }

  /** Saving a material: the constructor checks every colour, and the name
      then maps to the new material, replacing any earlier one. */
  function Save(reg: Registry, p: Pending): (r: Result<Registry>)
    requires |p.colors| == 4
    ensures r.Success? <==> forall k :: 0 <= k < 4 ==> |p.colors[k]| == 4
    ensures r.Failure? ==> r.error == MalformedColor
    ensures r.Success? ==> r.value.byName.Keys == reg.byName.Keys + {p.name}
    ensures r.Success? ==> forall n :: n in reg.byName && n != p.name ==> r.value.byName[n] == reg.byName[n]
    ensures r.Success? ==> var m := r.value.byName[p.name];
      m.serial == reg.made && [m.ambient, m.diffuse, m.specular, m.emission] == p.colors
    ensures r.Success? ==> r.value.made == reg.made + 1
  {
    match NewMaterial(reg.made, p.colors)
    case Failure(e) => Failure(e)
    case Success(m) => Success(Registry(reg.byName[p.name := m], reg.made + 1))
  }

  /** Saves the material being read, if there is one. */
  function Flush(st: State): (r: Result<Registry>)
    requires Valid(st)
  {
    if st.pending.None? then Success(st.reg) else Save(st.reg, st.pending.value)
  }

  /** One line of a material file. */
  function Step(st: State, line: MtlLine): (r: Result<State>)
    requires Valid(st)
    ensures r.Success? ==> Valid(r.value)
  {
    var t := line.tokens;
    if t == [] then Success(st)
    else if t[0] == Word("newmtl") then
      match Flush(st)
      case Failure(e) => Failure(e)
      case Success(reg) =>
        if |t| < 2 then Failure(MissingField)
        else Success(State(reg, Some(Pending(t[1], Blank))))
    else if IsColorKeyword(t[0]) then
      match ReadReals(t[1..])
      case Failure(e) => Failure(e)
      case Success(c) =>
        match ColorSlotAsWritten(line)
        case Failure(e) => Failure(e)
        case Success(slot) =>
          if st.pending.None? then Failure(NoPendingMaterial)
          else
            var p := st.pending.value;
            Success(st.(pending := Some(p.(colors := p.colors[slot := ExpandColor(c)]))))
    else Success(st)
  }

  /** The step as evidently intended: a colour record sets the slot its
      keyword names whatever the line's indentation, as the same record
      without indentation does. */
  function StepCorrected(st: State, line: MtlLine): (r: Result<State>)
    requires Valid(st)
    ensures r.Success? ==> Valid(r.value)
  {
    var t := line.tokens;
    if t != [] && IsColorKeyword(t[0]) then Step(st, MtlLine("", t)) else Step(st, line)
  }

  /** The lines of a file read in order from `st`; the first failing line aborts. */
  function RunFrom(st: State, lines: seq<MtlLine>): (r: Result<State>)
    requires Valid(st)
    ensures r.Success? ==> Valid(r.value)
  {
    if lines == [] then Success(st)
    else match RunFrom(st, lines[..|lines| - 1])
      case Failure(e) => Failure(e)
      case Success(mid) => Step(mid, lines[|lines| - 1])
  }

  /** A whole material file merged into `reg`; the last material is saved at the end. */
  function Parse(reg: Registry, lines: seq<MtlLine>): Result<Registry>
  {
    match RunFrom(State(reg, None), lines)
    case Failure(e) => Failure(e)
    case Success(st) => Flush(st)
  }

  /** Once a prefix of the file fails, the file fails with the same error. */
  lemma {:induction false} FailurePersists(st: State, lines: seq<MtlLine>, j: nat)
    requires Valid(st)
    requires j <= |lines| && RunFrom(st, lines[..j]).Failure?
    ensures RunFrom(st, lines) == RunFrom(st, lines[..j])
    decreases |lines|
  {
    if j < |lines| {
      var init := lines[..|lines| - 1];
      assert init[..j] == lines[..j];
      FailurePersists(st, init, j);
    } else {
      assert lines[..j] == lines;
    }
  }

  /** Blank lines and lines of any other record leave the parser state as it is. */
  lemma IgnoredLine(st: State, line: MtlLine)
    requires Valid(st)
    requires line.tokens == [] || (line.tokens[0] != Word("newmtl") && !IsColorKeyword(line.tokens[0]))
    ensures Step(st, line) == Success(st)
  {
  }

  /** A colour record of numbers: the slot is looked up from the raw line
      (an unknown letter fails with BadColorKey before the missing material
      is noticed); before any `newmtl` it fails; otherwise it sets exactly
      that slot to the expanded colour and changes nothing else. Without
      indentation the slot is the one the keyword names. */
  lemma ColorRecordSetsOneSlot(st: State, line: MtlLine)
    requires Valid(st)
    requires |line.tokens| > 0 && IsColorKeyword(line.tokens[0])
    requires forall k :: 1 <= k < |line.tokens| ==> line.tokens[k].Num?
    ensures ColorSlotAsWritten(line).Failure? ==> Step(st, line) == Failure(BadColorKey)
    ensures ColorSlotAsWritten(line).Success? ==>
      (st.pending.None? <==> Step(st, line) == Failure(NoPendingMaterial))
    ensures ColorSlotAsWritten(line).Success? && st.pending.Some? ==> Step(st, line).Success?
    ensures Step(st, line).Success? ==>
      var slot := ColorSlotAsWritten(line).value;
      var p, q := st.pending.value, Step(st, line).value.pending.value;
      && (line.lead == "" ==> slot == ColorSlot(line.tokens[0]))
      && Step(st, line).value.reg == st.reg
      && q.name == p.name
      && |q.colors| == 4
      && q.colors[slot] == ExpandColor(seq(|line.tokens| - 1, k requires 0 <= k < |line.tokens| - 1 => line.tokens[k + 1].value))
      && forall s :: 0 <= s < 4 && s != slot ==> q.colors[s] == p.colors[s]
  {
    var t := line.tokens;
    var c := ReadReals(t[1..]);
    assert c.Success?;
    assert c.value == seq(|t| - 1, k requires 0 <= k < |t| - 1 => t[k + 1].value);
    if line.lead == "" {
      SlotAsWrittenUnindented(line);
    }
  }

  /** The corrected step sets the slot the keyword names for any
      indentation, and agrees with the step as written on unindented lines. */
  lemma CorrectedColorRecord(st: State, line: MtlLine)
    requires Valid(st) && st.pending.Some?
    requires |line.tokens| > 0 && IsColorKeyword(line.tokens[0])
    requires forall k :: 1 <= k < |line.tokens| ==> line.tokens[k].Num?
    ensures StepCorrected(st, line).Success?
    ensures var p, q := st.pending.value, StepCorrected(st, line).value.pending.value;
      && q.name == p.name && |q.colors| == 4
      && q.colors[ColorSlot(line.tokens[0])] == ExpandColor(seq(|line.tokens| - 1, k requires 0 <= k < |line.tokens| - 1 => line.tokens[k + 1].value))
      && forall s :: 0 <= s < 4 && s != ColorSlot(line.tokens[0]) ==> q.colors[s] == p.colors[s]
    ensures line.lead == "" ==> StepCorrected(st, line) == Step(st, line)
  {
    var plain := MtlLine("", line.tokens);
    ColorRecordSetsOneSlot(st, plain);
    SlotAsWrittenUnindented(plain);
    if line.lead == "" {
      assert plain == line;
    }
  }

  /** The concrete case: as written, `  Kd 1 0 0` aborts the file, while the
      corrected step sets the diffuse colour. */
  lemma IndentedDiffuseDiverges(st: State)
    requires Valid(st) && st.pending.Some?
    ensures Step(st, MtlLine("  ", [Word("Kd"), Num(1.0), Num(0.0), Num(0.0)])) == Failure(BadColorKey)
    ensures StepCorrected(st, MtlLine("  ", [Word("Kd"), Num(1.0), Num(0.0), Num(0.0)])).Success?
  {
    var line := MtlLine("  ", [Word("Kd"), Num(1.0), Num(0.0), Num(0.0)]);
    IndentedDiffuseRejected();
    ColorRecordSetsOneSlot(st, line);
    CorrectedColorRecord(st, line);
  }

  /** `newmtl` saves the material being read (failing if one of its colours
      is not a quadruple) and starts a new one with four zero colours. */
  lemma NewmtlSavesAndStarts(st: State, line: MtlLine)
    requires Valid(st)
    requires |line.tokens| >= 2 && line.tokens[0] == Word("newmtl")
    ensures Step(st, line).Failure? <==>
      st.pending.Some? && exists k :: 0 <= k < 4 && |st.pending.value.colors[k]| != 4
    ensures Step(st, line).Success? ==>
      && Step(st, line).value.pending == Some(Pending(line.tokens[1], Blank))
      && Step(st, line).value.reg == Flush(st).value
  {
  }

  /** A colour record with a value float() rejects fails with BadNumber,
      before the slot is looked up. */
  lemma ColourBadNumber(st: State, line: MtlLine, k: nat)
    requires Valid(st)
    requires |line.tokens| > 0 && IsColorKeyword(line.tokens[0])
    requires 1 <= k < |line.tokens| && !line.tokens[k].Num?
    ensures Step(st, line) == Failure(BadNumber)
  {
    assert line.tokens[1..][k - 1] == line.tokens[k];
  }

  /** A `newmtl` without a name still saves the material being read first;
      if that succeeds the record fails with MissingField. */
  lemma BareNewmtl(st: State, lead: string)
    requires Valid(st)
    ensures Flush(st).Failure? ==> Step(st, MtlLine(lead, [Word("newmtl")])) == Failure(MalformedColor)
    ensures Flush(st).Success? ==> Step(st, MtlLine(lead, [Word("newmtl")])) == Failure(MissingField)
  {
  }

  /** The names the `newmtl` lines of a file introduce. */
  function NamesOf(lines: seq<MtlLine>): set<Token>
  {
    if lines == [] then {}
    else
      var t := lines[|lines| - 1].tokens;
      NamesOf(lines[..|lines| - 1]) + if |t| >= 2 && t[0] == Word("newmtl") then {t[1]} else {}
  }

  /** Reading lines never forgets a saved material name, and every name a
      `newmtl` introduced is saved or is the material still being read. */
  lemma {:induction false} RunKeepsNames(st: State, lines: seq<MtlLine>)
    requires Valid(st)
    requires RunFrom(st, lines).Success?
    ensures st.reg.byName.Keys <= RunFrom(st, lines).value.reg.byName.Keys
    ensures st.reg.made <= RunFrom(st, lines).value.reg.made
    ensures var end := RunFrom(st, lines).value;
      NamesOf(lines) <= end.reg.byName.Keys + (if end.pending.Some? then {end.pending.value.name} else {})
    ensures st.pending.Some? ==> var end := RunFrom(st, lines).value;
      st.pending.value.name in end.reg.byName.Keys + (if end.pending.Some? then {end.pending.value.name} else {})
  {
    if lines != [] {
      var init := lines[..|lines| - 1];
      RunKeepsNames(st, init);
    }
  }

  /** After a successful parse every name of the file, and every name known
      before it, maps to a material: the last material is saved at the end of input. */
  lemma ParseSavesEveryName(reg: Registry, lines: seq<MtlLine>)
    requires Parse(reg, lines).Success?
    ensures reg.byName.Keys + NamesOf(lines) <= Parse(reg, lines).value.byName.Keys
    ensures reg.made <= Parse(reg, lines).value.made
  {
    RunKeepsNames(State(reg, None), lines);
  }

  /** Redefining the name being read: the material read so far is saved
      under that name with a fresh serial, replacing any earlier material of
      the name, and the new definition starts blank; when that one is saved
      it replaces the first in turn. Last write wins. */
  lemma RedefinitionOverwrites(st: State, line: MtlLine)
    requires Valid(st) && st.pending.Some?
    requires |line.tokens| >= 2 && line.tokens[0] == Word("newmtl") && line.tokens[1] == st.pending.value.name
    requires Step(st, line).Success?
    ensures var s, a := Step(st, line).value, line.tokens[1];
      && s.pending == Some(Pending(a, Blank))
      && a in s.reg.byName
      && [s.reg.byName[a].ambient, s.reg.byName[a].diffuse, s.reg.byName[a].specular, s.reg.byName[a].emission] == st.pending.value.colors
      && s.reg.byName[a].serial == st.reg.made
      && Flush(s).Success?
      && Flush(s).value.byName[a] == Material(st.reg.made + 1, Black, Black, Black, Black)
      && Flush(s).value.byName.Keys == s.reg.byName.Keys
  {
  }
}
