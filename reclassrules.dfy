// The text format `r.reclass rules=<file>` reads: one rule per line,
// `<category> = <value>` or `* = <value>` for every category not listed.
module ReclassRules {
  import opened Wrappers
  import opened Strings
  import opened Raster

  /** A reclass rule: an input category, or `*` for every other, and its new value. */
  datatype Rule = Rule(from: Option<nat>, to: nat)

  /** The lines of a text, split at '\n'. */
  function Lines(text: string): (ls: seq<string>)
    ensures |ls| >= 1
    ensures forall i :: 0 <= i < |ls| ==> '\n' !in ls[i]
  {
    if '\n' !in text then [text]
    else
      var i := IndexOf(text, '\n');
      [text[..i]] + Lines(text[i + 1..])
  }

  function IndexOf(s: string, c: char): (i: nat)
    requires c in s
    ensures i < |s| && s[i] == c && c !in s[..i]
  {
    if s[0] == c then 0 else 1 + IndexOf(s[1..], c)
  }

  /** Lines joined with '\n' after every line but the last. */
  function JoinLines(ls: seq<string>): string
    requires |ls| >= 1
  {
    if |ls| == 1 then ls[0] else ls[0] + "\n" + JoinLines(ls[1..])
  }

  /** Lines each followed by '\n', as text built up one terminated line at a time. */
  function Terminated(ls: seq<string>): string
  {
    if |ls| == 0 then "" else ls[0] + "\n" + Terminated(ls[1..])
  }

  /** Appending one more terminated line. */
  lemma {:induction false} TerminatedSnoc(ls: seq<string>, x: string)
    ensures Terminated(ls + [x]) == Terminated(ls) + x + "\n"
  {
    if |ls| > 0 {
      assert (ls + [x])[1..] == ls[1..] + [x];
      TerminatedSnoc(ls[1..], x);
    } else {
      assert ls + [x] == [x];
    }
  }

  /** Terminated lines followed by an unterminated last line are the lines joined. */
  lemma {:induction false} JoinTerminated(ls: seq<string>, x: string)
    ensures JoinLines(ls + [x]) == Terminated(ls) + x
  {
    if |ls| > 0 {
      assert (ls + [x])[1..] == ls[1..] + [x];
      JoinTerminated(ls[1..], x);
    } else {
      assert ls + [x] == [x];
    }
  }

  lemma {:induction false} LinesJoin(ls: seq<string>)
    requires |ls| >= 1 && forall i :: 0 <= i < |ls| ==> '\n' !in ls[i]
    ensures Lines(JoinLines(ls)) == ls
  {
    if |ls| > 1 {
      var rest := JoinLines(ls[1..]);
      assert JoinLines(ls) == ls[0] + "\n" + rest;
      FirstLine(ls[0], rest);
      LinesJoin(ls[1..]);
      assert ls == [ls[0]] + ls[1..];
    } else {
      assert '\n' !in ls[0];
    }
  }

  /** Splitting `a + "\n" + b` at its first newline gives a and b when a has none. */
  lemma FirstLine(a: string, b: string)
    requires '\n' !in a
    ensures Lines(a + "\n" + b) == [a] + Lines(b)
  {
    var t := a + "\n" + b;
    assert t[|a|] == '\n';
    assert t[..|a|] == a;
    assert IndexOf(t, '\n') == |a|;
    assert t[|a| + 1..] == b;
  }

  /** `<category> = <value>` with both sides decimal, or `* = <value>`. */
  function ParseRule(line: string): Option<Rule>
  {
    if ' ' !in line then None
    else
      var i := IndexOf(line, ' ');
      var lhs, rest := line[..i], line[i..];
      if |rest| < 3 || rest[..3] != " = " then None
      else
        var rhs := rest[3..];
        if |rhs| == 0 || !AllDigits(rhs) then None
        else if lhs == "*" then Some(Rule(None, DigitsToNat(rhs)))
        else if |lhs| == 0 || !AllDigits(lhs) then None
        else Some(Rule(Some(DigitsToNat(lhs)), DigitsToNat(rhs)))
  }

  /** Every line must be a rule; otherwise r.reclass refuses the file. */
  function ParseLines(ls: seq<string>): (r: Option<seq<Rule>>)
    ensures r.Some? ==> |r.value| == |ls|
  {
    if |ls| == 0 then Some([])
    else
      match (ParseRule(ls[0]), ParseLines(ls[1..]))
      case (Some(x), Some(xs)) => Some([x] + xs)
      case _ => None
  }

  function ParseRules(text: string): Option<seq<Rule>>
  {
    ParseLines(Lines(text))
  }

  /** How a rule is written. */
  function RuleLine(r: Rule): string
  {
    (if r.from.Some? then NatToString(r.from.value) else "*") + " = " + NatToString(r.to)
  }

  /** A written rule reads back as itself. */
  lemma ParseRuleLine(r: Rule)
    ensures '\n' !in RuleLine(r)
    ensures ParseRule(RuleLine(r)) == Some(r)
  {
    var lhs := if r.from.Some? then NatToString(r.from.value) else "*";
    var rhs := NatToString(r.to);
    assert RuleLine(r) == lhs + " = " + rhs;
    assert '\n' !in lhs && '\n' !in rhs by {
      assert forall c :: c in lhs ==> c == '*' || IsDigit(c);
    }
    assert ' ' !in lhs by {
      assert forall c :: c in lhs ==> c == '*' || IsDigit(c);
    }
    ParseSides(lhs, rhs);
    ParseNatToString(r.to);
    if r.from.Some? {
      assert lhs != "*" by { assert IsDigit(lhs[0]); }
      ParseNatToString(r.from.value);
    }
  }

  /** A line `lhs = rhs` with no space in lhs and a decimal rhs parses by its lhs. */
  lemma ParseSides(lhs: string, rhs: string)
    requires ' ' !in lhs && |rhs| > 0 && AllDigits(rhs)
    ensures ParseRule(lhs + " = " + rhs) ==
      if lhs == "*" then Some(Rule(None, DigitsToNat(rhs)))
      else if |lhs| == 0 || !AllDigits(lhs) then None
      else Some(Rule(Some(DigitsToNat(lhs)), DigitsToNat(rhs)))
  {
    var line := lhs + " = " + rhs;
    assert line[|lhs|] == ' ';
    assert line[..|lhs|] == lhs;
    assert IndexOf(line, ' ') == |lhs|;
    assert line[|lhs|..] == " = " + rhs;
    assert (" = " + rhs)[..3] == " = ";
    assert (" = " + rhs)[3..] == rhs;
  }

  /** Lines that each write a rule parse back to those rules. */
  lemma {:induction false} ParseLinesOfRules(rs: seq<Rule>, ls: seq<string>)
    requires |ls| == |rs| && forall i :: 0 <= i < |rs| ==> ls[i] == RuleLine(rs[i])
    ensures ParseLines(ls) == Some(rs)
  {
    if |rs| > 0 {
      ParseRuleLine(rs[0]);
      ParseLinesOfRules(rs[1..], ls[1..]);
      assert [rs[0]] + rs[1..] == rs;
    }
  }

  /** A rules file written one rule per line parses back to the same rules. */
  lemma ParseRulesRoundTrip(rs: seq<Rule>)
    requires |rs| >= 1
    ensures ParseRules(JoinLines(seq(|rs|, i requires 0 <= i < |rs| => RuleLine(rs[i])))) == Some(rs)
  {
    var ls := seq(|rs|, i requires 0 <= i < |rs| => RuleLine(rs[i]));
    forall i | 0 <= i < |ls| ensures '\n' !in ls[i] {
      ParseRuleLine(rs[i]);
    }
    LinesJoin(ls);
    ParseLinesOfRules(rs, ls);
  }

  // ---- applying rules ----

  function FirstFor(rules: seq<Rule>, key: Option<nat>): (i: nat)
    requires exists i :: 0 <= i < |rules| && rules[i].from == key
    ensures i < |rules| && rules[i].from == key
    ensures forall j :: 0 <= j < i ==> rules[j].from != key
  {
    if rules[0].from == key then 0
    else
      assert exists i :: 0 <= i < |rules[1..]| && rules[1..][i].from == key by {
        var i :| 0 <= i < |rules| && rules[i].from == key;
        assert rules[1..][i - 1] == rules[i];
      }
      1 + FirstFor(rules[1..], key)
  }

  /** The value category c receives: its own rule, else the `*` rule, else null. */
  function Lookup(rules: seq<Rule>, c: int): Cell
  {
    if c >= 0 && exists i :: 0 <= i < |rules| && rules[i].from == Some(c as nat) then
      Val(rules[FirstFor(rules, Some(c as nat))].to as real)
    else if exists i :: 0 <= i < |rules| && rules[i].from == None then
      Val(rules[FirstFor(rules, None)].to as real)
    else Null
  }

  /** Cell by cell relabelling of a category map; null stays null. */
  function Relabel(rules: seq<Rule>, cells: seq<Cell>): (r: seq<Cell>)
    ensures |r| == |cells|
    ensures forall i :: 0 <= i < |cells| ==>
      r[i] == (if cells[i].Null? then Null else Lookup(rules, cells[i].v.Floor))
  {
    seq(|cells|, i requires 0 <= i < |cells| =>
      if cells[i].Null? then Null else Lookup(rules, cells[i].v.Floor))
  }
}
