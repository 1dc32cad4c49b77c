/** Indenting a block of YAML for a block scalar, and taking the indentation off again. A text is the
    list of its lines; nesting is kept because all lines are shifted alike. */
module Indentation {
  import opened Text

  type Lines = seq<string>

  const INDENT := "    "

  predicate AllBlank(lines: Lines) {
    forall line | line in lines :: Blank(line)
  }

  // strings.Trim and strings.TrimRight with "\n"; the empty text is one empty line
  function TrimEnd(lines: Lines): Lines {
    if |lines| > 1 && lines[|lines| - 1] == "" then TrimEnd(lines[..|lines| - 1]) else lines
  }

  function TrimStart(lines: Lines): Lines {
    if |lines| > 1 && lines[0] == "" then TrimStart(lines[1..]) else lines
  }

  function TrimOuter(lines: Lines): Lines {
    TrimEnd(TrimStart(lines))
  }

  // isProperlyIndented
  predicate IsIndented(lines: Lines) {
    forall line | line in lines :: Blank(line) || HasPrefix(line, INDENT)
  }

  function Deeper(line: string): string {
    if Blank(line) then line else INDENT + line
  }

  function Shallower(line: string): string {
    if Blank(line) then line else TrimPrefix(line, INDENT)
  }

  function Indented(lines: Lines): (r: Lines)
    ensures |r| == |lines|
  {
    seq(|lines|, i requires 0 <= i < |lines| => Deeper(lines[i]))
  }

  function Deindented(lines: Lines): (r: Lines)
    ensures |r| == |lines|
  {
    seq(|lines|, i requires 0 <= i < |lines| => Shallower(lines[i]))
  }

  // ensureProperIndentation
  function Ensured(content: Lines): Lines {
    var trimmed := TrimOuter(content);
    if AllBlank(trimmed) then [""]
    else if IsIndented(trimmed) then trimmed
    else Indented(trimmed)
  }

  // deindentValuesContent
  function Stripped(content: Lines): Lines {
    if AllBlank(content) then [""]
    else
      var lines := TrimEnd(content);
      if IsIndented(lines) then Deindented(lines) else content
  }

  /* ---- The loops ---- */

  method CheckIndented(lines: Lines) returns (indented: bool)
    ensures indented == IsIndented(lines)
  {
    for i := 0 to |lines|
      invariant IsIndented(lines[..i])
    {
      if Blank(lines[i]) {
        assert lines[..i + 1] == lines[..i] + [lines[i]];
        continue;
      }
      if !HasPrefix(lines[i], INDENT) {
        return false;
      }
      assert lines[..i + 1] == lines[..i] + [lines[i]];
    }
    assert lines[..|lines|] == lines;
    return true;
  }

  method IndentLines(lines: array<string>)
    modifies lines
    ensures lines[..] == Indented(old(lines[..]))
  {
    hide Blank;
    ghost var was := lines[..];
    for i := 0 to lines.Length
      invariant forall k | 0 <= k < i :: lines[k] == Deeper(was[k])
      invariant forall k | i <= k < lines.Length :: lines[k] == was[k]
    {
      if !Blank(lines[i]) {
        lines[i] := INDENT + lines[i];
      }
    }
    hide Deeper;
  }

  method DeindentLines(lines: array<string>)
    modifies lines
    ensures lines[..] == Deindented(old(lines[..]))
  {
    hide Blank;
    hide TrimPrefix;
    ghost var was := lines[..];
    for i := 0 to lines.Length
      invariant forall k | 0 <= k < i :: lines[k] == Shallower(was[k])
      invariant forall k | i <= k < lines.Length :: lines[k] == was[k]
    {
      if Blank(lines[i]) {
        continue;
      }
      lines[i] := TrimPrefix(lines[i], INDENT);
    }
    hide Shallower;
  }

  method EnsureProperIndentation(content: Lines) returns (r: Lines)
    ensures r == Ensured(content)
  {
    var trimmed := TrimOuter(content);
    if AllBlank(trimmed) {
      return [""];
    }
    var indented := CheckIndented(trimmed);
    if indented {
      return trimmed;
    }
    var lines := new string[|trimmed|](i requires 0 <= i < |trimmed| => trimmed[i]);
    assert lines[..] == trimmed;
    IndentLines(lines);
    return lines[..];
  }

  method DeindentValuesContent(content: Lines) returns (r: Lines)
    ensures r == Stripped(content)
  {
    if AllBlank(content) {
      return [""];
    }
    var trimmed := TrimEnd(content);
    var allIndented := CheckIndented(trimmed);
    if !allIndented {
      return content;
    }
    var lines := new string[|trimmed|](i requires 0 <= i < |trimmed| => trimmed[i]);
    assert lines[..] == trimmed;
    DeindentLines(lines);
    return lines[..];
  }

  /* ---- Lines ---- */

  lemma DeeperLine(line: string)
    ensures Blank(Deeper(line)) == Blank(line)
    ensures Shallower(Deeper(line)) == line
    ensures line != "" ==> Deeper(line) != ""
    ensures Blank(line) || HasPrefix(Deeper(line), INDENT)
  {
    BlankMeansSpaces(line);
    BlankMeansSpaces(Deeper(line));
    hide Blank;
    if !Blank(line) {
      var i :| 0 <= i < |line| && !IsSpace(line[i]);
      assert Deeper(line)[i + |INDENT|] == line[i];
      assert Deeper(line)[..|INDENT|] == INDENT && Deeper(line)[|INDENT|..] == line;
    }
  }

  // How far a line is indented
  function Depth(line: string): nat {
    if line != "" && line[0] == ' ' then 1 + Depth(line[1..]) else 0
  }

  lemma SpaceDepth(line: string)
    ensures Depth([' '] + line) == 1 + Depth(line)
  {
    assert ([' '] + line)[1..] == line;
  }

  lemma DeeperDepth(line: string)
    ensures Depth(INDENT + line) == 4 + Depth(line)
  {
    var one := [' '] + line;
    var two := [' '] + one;
    var three := [' '] + two;
    SpaceDepth(line);
    SpaceDepth(one);
    SpaceDepth(two);
    SpaceDepth(three);
    assert INDENT + line == [' '] + three;
    hide Depth;
  }

  lemma ShallowerDepth(line: string)
    requires HasPrefix(line, INDENT)
    ensures Depth(line) == 4 + Depth(line[|INDENT|..])
  {
    assert line == INDENT + line[|INDENT|..];
    DeeperDepth(line[|INDENT|..]);
  }

  /** Nesting is kept: every line that is not blank moves by one and the same amount, at most four
      columns, and blank lines stay as they are. */
  lemma EnsuringKeepsNesting(content: Lines) returns (shift: nat)
    requires !AllBlank(TrimOuter(content))
    ensures shift == 0 || shift == 4
    ensures var before, after := TrimOuter(content), Ensured(content);
            |after| == |before| &&
            forall i | 0 <= i < |before| ::
              if Blank(before[i]) then after[i] == before[i]
              else Depth(after[i]) == Depth(before[i]) + shift && after[i][shift..] == before[i]
  {
    hide Blank;
    hide Depth;
    var before, after := TrimOuter(content), Ensured(content);
    shift := if IsIndented(before) then 0 else 4;
    forall i | 0 <= i < |before|
      ensures if Blank(before[i]) then after[i] == before[i]
              else Depth(after[i]) == Depth(before[i]) + shift && after[i][shift..] == before[i]
    {
      if shift == 4 { DeeperDepth(before[i]); }
      hide TrimOuter;
      hide IsIndented;
    }
  }

  lemma StrippingKeepsNesting(content: Lines) returns (shift: nat)
    requires !AllBlank(content)
    ensures shift == 0 || shift == 4
    ensures var before, after := (if shift == 0 then content else TrimEnd(content)), Stripped(content);
            |after| == |before| &&
            forall i | 0 <= i < |before| ::
              if Blank(before[i]) then after[i] == before[i]
              else Depth(after[i]) + shift == Depth(before[i]) && shift <= |before[i]| && after[i] == before[i][shift..]
  {
    hide Blank;
    hide Depth;
    shift := if IsIndented(TrimEnd(content)) then 4 else 0;
    var before, after := (if shift == 0 then content else TrimEnd(content)), Stripped(content);
    forall i | 0 <= i < |before|
      ensures if Blank(before[i]) then after[i] == before[i]
              else Depth(after[i]) + shift == Depth(before[i]) && shift <= |before[i]| && after[i] == before[i][shift..]
    {
      if shift == 4 && !Blank(before[i]) {
        assert before[i] in before;
        ShallowerDepth(before[i]);
      }
      hide TrimEnd;
    }
  }

  /* ---- Texts ---- */

  // No outer newline left
  predicate Bare(lines: Lines) {
    |lines| > 1 ==> lines[0] != "" && lines[|lines| - 1] != ""
  }

  lemma {:induction false} TrimEndEnds(lines: Lines)
    ensures var r := TrimEnd(lines);
            |r| <= |lines| && r == lines[..|r|] && (|r| > 1 ==> r[|r| - 1] != "") && (lines != [] ==> r != []) &&
            forall i | |r| <= i < |lines| :: lines[i] == ""
  {
    if |lines| > 1 && lines[|lines| - 1] == "" { TrimEndEnds(lines[..|lines| - 1]); }
  }

  lemma {:induction false} TrimStartStarts(lines: Lines)
    ensures var r := TrimStart(lines);
            |r| <= |lines| && r == lines[|lines| - |r|..] && (|r| > 1 ==> r[0] != "") && (lines != [] ==> r != []) &&
            forall i | 0 <= i < |lines| - |r| :: lines[i] == ""
  {
    if |lines| > 1 && lines[0] == "" { TrimStartStarts(lines[1..]); }
  }

  /** Trimming takes away empty lines at both ends, and nothing else. */
  lemma OnlyEmptyLinesGo(lines: Lines) returns (from: nat)
    ensures var r := TrimOuter(lines);
            from + |r| <= |lines| && r == lines[from..from + |r|] && Bare(r) &&
            forall i | 0 <= i < |lines| && !(from <= i < from + |r|) :: lines[i] == ""
  {
    TrimStartStarts(lines);
    TrimEndEnds(TrimStart(lines));
    hide TrimStart;
    hide TrimEnd;
    from := |lines| - |TrimStart(lines)|;
  }

  lemma TrimmedIsBare(lines: Lines)
    ensures Bare(TrimOuter(lines)) && (lines != [] ==> TrimOuter(lines) != [])
    ensures Bare(lines) ==> TrimOuter(lines) == lines && TrimEnd(lines) == lines
  {
    TrimStartStarts(lines);
    TrimEndEnds(TrimStart(lines));
  }

  lemma IndentedIsBare(lines: Lines)
    requires Bare(lines)
    ensures Bare(Indented(lines)) && IsIndented(Indented(lines)) && AllBlank(Indented(lines)) == AllBlank(lines)
    ensures Deindented(Indented(lines)) == lines
  {
    hide Blank;
    forall i | 0 <= i < |lines|
      ensures Blank(Indented(lines)[i]) == Blank(lines[i]) && Shallower(Indented(lines)[i]) == lines[i]
      ensures lines[i] != "" ==> Indented(lines)[i] != ""
      ensures Blank(Indented(lines)[i]) || HasPrefix(Indented(lines)[i], INDENT)
    {
      DeeperLine(lines[i]);
    }
    hide Deeper;
    hide Shallower;
    hide HasPrefix;
    forall line | line in lines ensures AllBlank(Indented(lines)) ==> Blank(line) {
      var i :| 0 <= i < |lines| && lines[i] == line;
      assert Indented(lines)[i] in Indented(lines);
    }
  }

  lemma EmptyTextIsBlank()
    ensures Blank("") && AllBlank([""]) && TrimOuter([""]) == [""]
  {
  }

  /** What ensureProperIndentation makes is properly indented, and it leaves it alone from then on. */
  lemma EnsuringIsIdempotent(content: Lines)
    ensures IsIndented(Ensured(content)) && Ensured(Ensured(content)) == Ensured(content)
  {
    EmptyTextIsBlank();
    var trimmed := TrimOuter(content);
    TrimmedIsBare(content);
    TrimmedIsBare(trimmed);
    IndentedIsBare(trimmed);
    TrimmedIsBare(Indented(trimmed));
    hide Blank;
    hide TrimOuter;
    hide Indented;
    hide Bare;
  }

  /** Taking the indentation off gives the text back, without its outer newlines, exactly when the text
      was not already indented, or is empty. */
  lemma StrippingUndoesEnsuring(content: Lines)
    requires content != []
    ensures Stripped(Ensured(content)) == TrimOuter(content) <==>
            !IsIndented(TrimOuter(content)) || TrimOuter(content) == [""]
  {
    hide *;
    var trimmed := TrimOuter(content);
    TrimmedIsBare(content);
    if AllBlank(trimmed) {
      BlankIsIndented(trimmed);
      StrippingBlank(content);
    } else if IsIndented(trimmed) {
      EmptyTextIsBlank();
      StrippingIndented(content);
      DeindentingChanges(trimmed);
    } else {
      StrippingOther(content);
    }
  }

  lemma StrippingBlank(content: Lines)
    requires AllBlank(TrimOuter(content))
    ensures Stripped(Ensured(content)) == [""]
  {
    EmptyTextIsBlank();
    hide Blank;
    hide TrimOuter;
    hide AllBlank;
  }

  lemma StrippingIndented(content: Lines)
    requires !AllBlank(TrimOuter(content)) && IsIndented(TrimOuter(content)) && Bare(TrimOuter(content))
    ensures Stripped(Ensured(content)) == Deindented(TrimOuter(content))
  {
    TrimmedIsBare(TrimOuter(content));
    hide TrimOuter;
    hide TrimEnd;
    hide AllBlank;
    hide IsIndented;
    hide Deindented;
    hide Bare;
  }

  lemma StrippingOther(content: Lines)
    requires !AllBlank(TrimOuter(content)) && !IsIndented(TrimOuter(content)) && Bare(TrimOuter(content))
    ensures Stripped(Ensured(content)) == TrimOuter(content)
  {
    hide *;
    var trimmed := TrimOuter(content);
    IndentedIsBare(trimmed);
    TrimmedIsBare(Indented(trimmed));
    EnsuredOther(content);
    StrippedIndented(Indented(trimmed));
  }

  lemma EnsuredOther(content: Lines)
    requires !AllBlank(TrimOuter(content)) && !IsIndented(TrimOuter(content))
    ensures Ensured(content) == Indented(TrimOuter(content))
  {
    hide TrimOuter;
    hide AllBlank;
    hide IsIndented;
    hide Indented;
  }

  lemma StrippedIndented(lines: Lines)
    requires !AllBlank(lines) && IsIndented(lines) && TrimEnd(lines) == lines
    ensures Stripped(lines) == Deindented(lines)
  {
    hide TrimEnd;
    hide AllBlank;
    hide IsIndented;
    hide Deindented;
  }

  lemma BlankIsIndented(lines: Lines)
    requires AllBlank(lines)
    ensures IsIndented(lines)
  {
    hide Blank;
  }

  lemma DeindentingChanges(lines: Lines)
    requires IsIndented(lines) && !AllBlank(lines)
    ensures Deindented(lines) != lines
  {
    hide Blank;
    var line :| line in lines && !Blank(line);
    var i :| 0 <= i < |lines| && lines[i] == line;
    assert |Deindented(lines)[i]| < |lines[i]|;
  }
}
