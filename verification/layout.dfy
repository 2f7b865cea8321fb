/**
 * The field store of a memory layout: a layout text, one field per line,
 * parsed into named fields of fixed width.  A `bit` or `var` nested inside
 * `array` lines owns a backing vector with one element per combination of
 * the enclosing arrays' indices, addressed in row-major order.
 *
 * Lines reach the parser already split into words (see Line); the text
 * splitting of the source is not modelled.
 */
module Layout {
  import opened Wrappers
  import opened Bits

  datatype Command = Array | Bit | Var

  /**
   * One parsed line.  `parent` is the index of the enclosing field,
   * `dimensions` the indices of the enclosing arrays (outermost first) and
   * `children` the indices of the fields nested directly inside this one.
   */
  datatype Field = Field(line: nat, indent: nat, name: string, cmd: Command, rep: nat,
                         parent: Option<nat>, dimensions: seq<nat>, children: seq<nat>)
  {
    /** A spacer takes up space: a bit or a var. */
    predicate Spacer() { cmd == Bit || cmd == Var }

    /** The width in bits of a spacer, or the repetition of an array. */
    function RepOf(): nat { if cmd == Bit then 1 else rep }
  }

  /** A line of layout text, split at white space: its indentation and its words. */
  datatype Line = Line(indent: nat, words: seq<string>)

  /** What a non-comment line declares. */
  datatype Entry = Entry(name: string, cmd: Command, rep: nat)

  /** Why a layout text is refused; line numbers count from 1. */
  datatype ParseError =
    | NotEnoughOperands(line: nat)
    | UnknownCommand(line: nat)
    | BadRepetition(line: nat)
    | RepetitionTooLarge(line: nat)
    | DuplicateName(name: string, line: nat)
    | IndentTooSmall(line: nat)
    | IndentUnmatched(line: nat)
    | BitHasChildren(name: string, line: nat)
    | VarHasChildren(name: string, line: nat)
    | ArrayWithoutChild(name: string, line: nat)

  // ---------------------------------------------------------------------------
  // Decoding one line

  /** A comment line holds nothing but a `#` (the pattern must match the whole line). */
  predicate IsComment(ln: Line) { ln.words == ["#"] }

  function LowerChar(c: char): char
  {
    if 'A' <= c <= 'Z' then (c as int + 32) as char else c
  }

  function Lower(s: string): (r: string)
    ensures |r| == |s|
  {
    seq(|s|, i requires 0 <= i < |s| => LowerChar(s[i]))
  }

  predicate AllDigits(s: string)
  {
    |s| > 0 && forall i :: 0 <= i < |s| ==> '0' <= s[i] <= '9'
  }

  /** The decimal number a string of digits spells. */
  function DigitsValue(s: string): nat
    requires forall i :: 0 <= i < |s| ==> '0' <= s[i] <= '9'
  {
    if |s| == 0 then 0
    else 10 * DigitsValue(s[..|s| - 1]) + (s[|s| - 1] as int - '0' as int)
  }

  /** The checks made on line number l (counted from 0) before it becomes a field. */
  function Decode(ln: Line, l: nat): (r: Result<Entry, ParseError>)
    ensures |ln.words| < 2 ==> r == Err(NotEnoughOperands(l + 1))
    ensures r.Err? ==> r.error.line == l + 1
    ensures r.Err? ==> r.error.NotEnoughOperands? || r.error.UnknownCommand? || r.error.BadRepetition? || r.error.RepetitionTooLarge?
  {
    var w := ln.words;
    if |w| < 2 then Err(NotEnoughOperands(l + 1))
    else
      var c := Lower(w[1]);
      if c != "array" && c != "bit" && c != "var" then Err(UnknownCommand(l + 1))
      else
        var cmd := if c == "array" then Array else if c == "bit" then Bit else Var;
        var expected := if cmd == Bit then 2 else 3;
        if |w| != expected then Err(NotEnoughOperands(l + 1))
        else if |w| > 2 && !AllDigits(w[2]) then Err(BadRepetition(l + 1))
        else if |w| > 2 && DigitsValue(w[2]) > IntMax then Err(RepetitionTooLarge(l + 1))
        else Ok(Entry(w[0], cmd, if |w| > 2 then DigitsValue(w[2]) else 1))
  }

  lemma DecodeExamples()
    ensures Decode(Line(0, ["A", "array", "2"]), 0) == Ok(Entry("A", Array, 2))
    ensures Decode(Line(2, ["b", "BIT"]), 1) == Ok(Entry("b", Bit, 1))
    ensures Decode(Line(2, ["s", "struct"]), 2) == Err(UnknownCommand(3))
    ensures Decode(Line(2, ["a", "var"]), 3) == Err(NotEnoughOperands(4))
    ensures Decode(Line(2, ["a", "var", "x4"]), 4) == Err(BadRepetition(5))
  {
    assert Lower("array") == "array";
    assert Lower("BIT") == "bit";
    assert Lower("struct") == "struct";
    assert Lower("var") == "var";
    assert DigitsValue("2") == 2;
  }

  /** Every field decoded from a line has a command that it names and a Java int repetition. */
  lemma DecodeSound(ln: Line, l: nat)
    requires Decode(ln, l).Ok?
    ensures Decode(ln, l).value.rep <= IntMax
    ensures Decode(ln, l).value.name == ln.words[0]
    ensures Decode(ln, l).value.cmd == Bit ==> Decode(ln, l).value.rep == 1 && |ln.words| == 2
    ensures Decode(ln, l).value.cmd != Bit ==> |ln.words| == 3
  {
  }

  // ---------------------------------------------------------------------------
  // The shape of a parsed layout

  /** The indices of the lines before l that declare fields. */
  function NonComment(lines: seq<Line>, l: nat): (r: seq<nat>)
    requires l <= |lines|
    ensures |r| <= l
    ensures forall k :: 0 <= k < |r| ==> r[k] < l && !IsComment(lines[r[k]])
  {
    if l == 0 then []
    else NonComment(lines, l - 1) + (if IsComment(lines[l - 1]) then [] else [l - 1])
  }

  /** Field k is what line NonComment(lines, l)[k] declares. */
  ghost predicate FieldFromLine(lines: seq<Line>, l: nat, fs: seq<Field>, k: nat)
    requires l <= |lines| && k < |fs| && |fs| == |NonComment(lines, l)|
  {
    var n := NonComment(lines, l)[k];
    fs[k].line == n && fs[k].indent == lines[n].indent &&
    Decode(lines[n], n) == Ok(Entry(fs[k].name, fs[k].cmd, fs[k].rep))
  }

  ghost predicate FromLines(lines: seq<Line>, l: nat, fs: seq<Field>)
    requires l <= |lines|
  {
    |fs| == |NonComment(lines, l)| && forall k :: 0 <= k < |fs| ==> FieldFromLine(lines, l, fs, k)
  }

  /** Field k hangs from the parent that the indentation rule picks among the fields before it. */
  ghost predicate ParentByRule(lines: seq<Line>, l: nat, fs: seq<Field>, k: nat)
    requires l <= |lines| && k < |fs| && |fs| == |NonComment(lines, l)|
  {
    ParentRule(fs, k, fs[k].indent, NonComment(lines, l)[k] + 1) == Ok(fs[k].parent)
  }

  ghost predicate ParentsByRule(lines: seq<Line>, l: nat, fs: seq<Field>)
    requires l <= |lines|
  {
    |fs| == |NonComment(lines, l)| && forall k :: 0 <= k < |fs| ==> ParentByRule(lines, l, fs, k)
  }

  /** Parented, checked one field at a time against its own parent. */
  lemma ParentedByIndex(fs: seq<Field>)
    requires ParentsBefore(fs)
    requires forall k :: 0 <= k < |fs| && fs[k].parent.Some? ==> fs[fs[k].parent.value].indent < fs[k].indent
    ensures Parented(fs)
  {
  }

  predicate UniqueNames(fs: seq<Field>)
  {
    forall i, j :: 0 <= i < j < |fs| ==> fs[i].name != fs[j].name
  }

  predicate ParentsBefore(fs: seq<Field>)
  {
    forall k :: 0 <= k < |fs| && fs[k].parent.Some? ==> fs[k].parent.value < k
  }

  /** Every parent comes earlier and is indented less than its child. */
  predicate Parented(fs: seq<Field>)
  {
    ParentsBefore(fs) &&
    forall k, p :: 0 <= k < |fs| && 0 <= p < |fs| && fs[k].parent == Some(p) ==> fs[p].indent < fs[k].indent
  }

  /** The fields before n whose parent is p, in order. */
  function KidsBelow(fs: seq<Field>, p: nat, n: nat): seq<nat>
    requires n <= |fs|
  {
    if n == 0 then []
    else KidsBelow(fs, p, n - 1) + (if fs[n - 1].parent == Some(p) then [n - 1] else [])
  }

  predicate ChildrenListed(fs: seq<Field>)
  {
    forall p :: 0 <= p < |fs| ==> fs[p].children == KidsBelow(fs, p, |fs|)
  }

  /** The arrays among q and the ancestors of q, outermost first. */
  function Above(fs: seq<Field>, q: Option<nat>): (r: seq<nat>)
    requires ParentsBefore(fs) && (q.Some? ==> q.value < |fs|)
    ensures forall i :: 0 <= i < |r| ==> r[i] < |fs| && fs[r[i]].cmd == Array
    ensures q.Some? ==> forall i :: 0 <= i < |r| ==> r[i] <= q.value
    ensures forall i, j :: 0 <= i < j < |r| ==> r[i] < r[j]
    decreases if q.Some? then q.value + 1 else 0
  {
    match q
    case None => []
    case Some(a) => Above(fs, fs[a].parent) + (if fs[a].cmd == Array then [a] else [])
  }

  /** The arrays that enclose field k, outermost first: its dimensions. */
  function EnclosingArrays(fs: seq<Field>, k: nat): seq<nat>
    requires ParentsBefore(fs) && k < |fs|
  {
    Above(fs, fs[k].parent)
  }

  predicate Dimensioned(fs: seq<Field>)
    requires ParentsBefore(fs)
  {
    forall k :: 0 <= k < |fs| ==>
      fs[k].dimensions == (if fs[k].Spacer() then EnclosingArrays(fs, k) else [])
  }

  predicate ChildCountsOk(fs: seq<Field>)
  {
    forall k :: 0 <= k < |fs| ==>
      (fs[k].Spacer() ==> fs[k].children == []) && (fs[k].cmd == Array ==> fs[k].children != [])
  }

  predicate DimsValid(fs: seq<Field>)
  {
    forall k, c :: 0 <= k < |fs| && 0 <= c < |fs[k].dimensions| ==> fs[k].dimensions[c] < |fs|
  }

  lemma {:induction false} KidsFrame(fs: seq<Field>, gs: seq<Field>, p: nat, n: nat)
    requires n <= |fs| && n <= |gs|
    requires forall k :: 0 <= k < n ==> fs[k].parent == gs[k].parent
    ensures KidsBelow(fs, p, n) == KidsBelow(gs, p, n)
  {
    if n > 0 { KidsFrame(fs, gs, p, n - 1); }
  }

  lemma {:induction false} AboveFrame(fs: seq<Field>, gs: seq<Field>, q: Option<nat>)
    requires ParentsBefore(fs) && ParentsBefore(gs) && |fs| == |gs|
    requires forall k :: 0 <= k < |fs| ==> fs[k].parent == gs[k].parent && fs[k].cmd == gs[k].cmd
    requires q.Some? ==> q.value < |fs|
    ensures Above(fs, q) == Above(gs, q)
    decreases if q.Some? then q.value + 1 else 0
  {
    if q.Some? { AboveFrame(fs, gs, fs[q.value].parent); }
  }

  // ---------------------------------------------------------------------------
  // Parsing: the rules

  /** The last of the first n fields indented by `indent`, if there is one. */
  function LastIndented(fs: seq<Field>, n: nat, indent: nat): (r: Option<nat>)
    requires n <= |fs|
    ensures r.Some? ==> r.value < n && fs[r.value].indent == indent &&
                        forall j :: r.value < j < n ==> fs[j].indent != indent
    ensures r.None? ==> forall j :: 0 <= j < n ==> fs[j].indent != indent
  {
    if n == 0 then None
    else if fs[n - 1].indent == indent then Some(n - 1)
    else LastIndented(fs, n - 1, indent)
  }

  /**
   * The field, among the first n, that a line at this indentation is placed
   * after: the last field when the line is indented at least two columns
   * more than it, a refusal when it is indented just one more, and otherwise
   * the last field with the same indentation.
   */
  function PreviousElement(fs: seq<Field>, n: nat, indent: nat, line: nat): (r: Result<nat, ParseError>)
    requires 0 < n <= |fs|
    ensures r.Ok? ==> r.value < n
  {
    if indent >= fs[n - 1].indent + 2 then Ok(n - 1)
    else if indent > fs[n - 1].indent then Err(IndentTooSmall(line))
    else
      match LastIndented(fs, n, indent)
      case None => Err(IndentUnmatched(line))
      case Some(j) => Ok(j)
  }

  /**
   * The parent of the field declared after the first n: none for the very
   * first field; the previous element when the new line is indented more
   * than it; otherwise the previous element's own parent.
   */
  function ParentRule(fs: seq<Field>, n: nat, indent: nat, line: nat): (r: Result<Option<nat>, ParseError>)
    requires n <= |fs|
    ensures n == 0 ==> r == Ok(None)
  {
    if n == 0 then Ok(None)
    else
      match PreviousElement(fs, n, indent, line)
      case Err(e) => Err(e)
      case Ok(p) => Ok(if indent > fs[p].indent then Some(p) else fs[p].parent)
  }

  /** A parent the rule chooses is an earlier field, indented less than the new line. */
  lemma ParentRuleSound(fs: seq<Field>, n: nat, indent: nat, line: nat)
    requires n <= |fs| && Parented(fs)
    ensures var r := ParentRule(fs, n, indent, line);
      r.Ok? && r.value.Some? ==> r.value.value < n && fs[r.value.value].indent < indent
  {
  }

  /** The rule reads only the indentation and the parent of the first n fields. */
  lemma ParentRuleFrame(fs: seq<Field>, gs: seq<Field>, n: nat, indent: nat, line: nat)
    requires n <= |fs| && n <= |gs|
    requires forall j :: 0 <= j < n ==> fs[j].indent == gs[j].indent && fs[j].parent == gs[j].parent
    ensures ParentRule(fs, n, indent, line) == ParentRule(gs, n, indent, line)
  {
    if n > 0 {
      var a, b := LastIndented(fs, n, indent), LastIndented(gs, n, indent);
      if a.Some? && b.Some? {
        assert a.value == b.value;
      }
    }
  }

  /** Whether one of the fields already has this name. */
  predicate NameTaken(fs: seq<Field>, name: string)
  {
    exists k :: 0 <= k < |fs| && fs[k].name == name
  }

  /**
   * Line l read after the fields built from the lines before it: a comment
   * adds nothing; any other line is decoded, refused if its name is taken,
   * and appended below the parent its indentation selects.
   */
  function Declare(lines: seq<Line>, l: nat, fs: seq<Field>): (r: Result<seq<Field>, ParseError>)
    requires l < |lines| && Parented(fs)
    ensures r.Ok? ==> Parented(r.value)
  {
    if IsComment(lines[l]) then Ok(fs)
    else
      match Decode(lines[l], l)
      case Err(e) => Err(e)
      case Ok(d) =>
        if NameTaken(fs, d.name) then Err(DuplicateName(d.name, l + 1))
        else
          match ParentRule(fs, |fs|, lines[l].indent, l + 1)
          case Err(e) => Err(e)
          case Ok(p) =>
            ParentRuleSound(fs, |fs|, lines[l].indent, l + 1);
            Ok(Attach(fs, Field(l, lines[l].indent, d.name, d.cmd, d.rep, p, [], [])))
  }

  /** Reading a line keeps every invariant of the first pass. */
  lemma DeclareBuilt(lines: seq<Line>, l: nat, fs: seq<Field>)
    requires l < |lines| && Built(lines, l, fs)
    ensures Declare(lines, l, fs).Ok? ==> Built(lines, l + 1, Declare(lines, l, fs).value)
  {
    if IsComment(lines[l]) {
      SkipComment(lines, l, fs);
    } else if Declare(lines, l, fs).Ok? {
      var d := Decode(lines[l], l).value;
      var p := ParentRule(fs, |fs|, lines[l].indent, l + 1).value;
      ParentRuleSound(fs, |fs|, lines[l].indent, l + 1);
      var f := Field(l, lines[l].indent, d.name, d.cmd, d.rep, p, [], []);
      AppendField(lines, l, fs, Attach(fs, f), f);
    }
  }

  /** The first pass over the lines before l: the fields they declare, or the first refusal. */
  function Tree(lines: seq<Line>, l: nat): (r: Result<seq<Field>, ParseError>)
    requires l <= |lines|
    ensures r.Ok? ==> Parented(r.value)
  {
    if l == 0 then Ok([])
    else
      match Tree(lines, l - 1)
      case Err(e) => Err(e)
      case Ok(fs) => Declare(lines, l - 1, fs)
  }

  lemma TreeStep(lines: seq<Line>, l: nat)
    requires l < |lines| && Tree(lines, l).Ok?
    ensures Tree(lines, l + 1) == Declare(lines, l, Tree(lines, l).value)
  {
  }

  /** What the first pass accepts has one field per declaring line, unique names and exact child lists. */
  lemma {:induction false} TreeBuilt(lines: seq<Line>, l: nat)
    requires l <= |lines|
    ensures Tree(lines, l).Ok? ==> Built(lines, l, Tree(lines, l).value)
  {
    if l > 0 {
      TreeBuilt(lines, l - 1);
      if Tree(lines, l - 1).Ok? {
        TreeStep(lines, l - 1);
      } else {
        TreeErrStep(lines, l);
      }
      TreeStepBuilt(lines, l, Tree(lines, l - 1), Tree(lines, l));
    }
  }

  /** The step of TreeBuilt: declaring line l - 1 keeps what was built Built, and a refusal stays one. */
  lemma TreeStepBuilt(lines: seq<Line>, l: nat, before: Result<seq<Field>, ParseError>, after: Result<seq<Field>, ParseError>)
    requires 0 < l <= |lines|
    requires before.Ok? ==> Built(lines, l - 1, before.value)
    requires before.Ok? ==> Parented(before.value) && after == Declare(lines, l - 1, before.value)
    requires before.Err? ==> after == before
    ensures after.Ok? ==> Built(lines, l, after.value)
  {
    if before.Ok? {
      DeclareBuilt(lines, l - 1, before.value);
    }
  }

  /** Appending a field leaves the rule's choice among the fields before it unchanged. */
  lemma AttachKeepsRule(fs: seq<Field>, f: Field, n: nat, indent: nat, line: nat)
    requires (f.parent.Some? ==> f.parent.value < |fs|) && n <= |fs|
    ensures ParentRule(Attach(fs, f), n, indent, line) == ParentRule(fs, n, indent, line)
  {
    ParentRuleFrame(Attach(fs, f), fs, n, indent, line);
  }

  /** A comment line keeps every parent the one the indentation rule picks. */
  lemma CommentByRule(lines: seq<Line>, l: nat, fs: seq<Field>)
    requires l < |lines| && IsComment(lines[l]) && ParentsByRule(lines, l, fs)
    ensures ParentsByRule(lines, l + 1, fs)
  {
    var next := l + 1;
    assert NonComment(lines, next) == NonComment(lines, l);
    forall k | 0 <= k < |fs| ensures ParentByRule(lines, next, fs, k) {
      assert ParentByRule(lines, l, fs, k);
    }
  }

  /** A field appended with the parent the rule picks keeps every parent the one the rule picks. */
  lemma AttachByRule(lines: seq<Line>, l: nat, fs: seq<Field>, f: Field)
    requires l < |lines| && !IsComment(lines[l]) && ParentsByRule(lines, l, fs)
    requires f.parent.Some? ==> f.parent.value < |fs|
    requires ParentRule(fs, |fs|, f.indent, l + 1) == Ok(f.parent)
    ensures ParentsByRule(lines, l + 1, Attach(fs, f))
  {
    var next := l + 1;
    var after := Attach(fs, f);
    assert NonComment(lines, next) == NonComment(lines, l) + [l];
    forall k | 0 <= k < |after| ensures ParentByRule(lines, next, after, k) {
      if k < |fs| {
        EarlierByRule(lines, l, fs, f, k);
      } else {
        AttachKeepsRule(fs, f, k, f.indent, l + 1);
      }
    }
  }

  lemma EarlierByRule(lines: seq<Line>, l: nat, fs: seq<Field>, f: Field, k: nat)
    requires l < |lines| && ParentsByRule(lines, l, fs) && k < |fs|
    requires f.parent.Some? ==> f.parent.value < |fs|
    requires NonComment(lines, l + 1) == NonComment(lines, l) + [l]
    ensures ParentByRule(lines, l + 1, Attach(fs, f), k)
  {
    assert ParentByRule(lines, l, fs, k);
    AttachKeepsRule(fs, f, k, fs[k].indent, NonComment(lines, l)[k] + 1);
  }

  /** Declaring a field keeps every parent the one the indentation rule picks. */
  lemma DeclareByRule(lines: seq<Line>, l: nat, fs: seq<Field>)
    requires l < |lines| && Parented(fs) && ParentsByRule(lines, l, fs)
    ensures Declare(lines, l, fs).Ok? ==> ParentsByRule(lines, l + 1, Declare(lines, l, fs).value)
  {
    if IsComment(lines[l]) {
      CommentByRule(lines, l, fs);
    } else if Declare(lines, l, fs).Ok? {
      var d := Decode(lines[l], l).value;
      var p := ParentRule(fs, |fs|, lines[l].indent, l + 1).value;
      ParentRuleSound(fs, |fs|, lines[l].indent, l + 1);
      AttachByRule(lines, l, fs, Field(l, lines[l].indent, d.name, d.cmd, d.rep, p, [], []));
    }
  }

  /** In what the first pass accepts, every parent is the one the indentation rule picks. */
  lemma {:induction false} TreeByRule(lines: seq<Line>, l: nat)
    requires l <= |lines|
    ensures Tree(lines, l).Ok? ==> ParentsByRule(lines, l, Tree(lines, l).value)
  {
    if l > 0 && Tree(lines, l).Ok? {
      TreeByRule(lines, l - 1);
      TreeStep(lines, l - 1);
      DeclareByRule(lines, l - 1, Tree(lines, l - 1).value);
    }
  }

  /** Setting dimensions keeps every parent the one the indentation rule picks. */
  lemma DimensionsByRule(lines: seq<Line>, t: seq<Field>, fs: seq<Field>)
    requires ParentsByRule(lines, |lines|, t) && |fs| == |t|
    requires forall j :: 0 <= j < |t| ==> fs[j] == t[j].(dimensions := fs[j].dimensions)
    ensures ParentsByRule(lines, |lines|, fs)
  {
    forall k | 0 <= k < |fs| ensures ParentByRule(lines, |lines|, fs, k) {
      assert ParentByRule(lines, |lines|, t, k);
      ParentRuleFrame(t, fs, k, fs[k].indent, NonComment(lines, |lines|)[k] + 1);
    }
  }

  /** In an accepted layout, every parent is the one the indentation rule picks. */
  lemma ParseByRule(lines: seq<Line>)
    ensures Parse(lines).Ok? ==> ParentsByRule(lines, |lines|, Parse(lines).value)
  {
    if Parse(lines).Ok? {
      var t := Tree(lines, |lines|).value;
      TreeByRule(lines, |lines|);
      DimensionsByRule(lines, t, WithDimensions(t));
    }
  }

  /** Once the first pass has failed, the next line changes nothing. */
  lemma TreeErrStep(lines: seq<Line>, m: nat)
    requires 0 < m <= |lines| && Tree(lines, m - 1).Err?
    ensures Tree(lines, m) == Tree(lines, m - 1)
  {
  }

  /** Once a line is refused, so is the whole text. */
  lemma {:induction false} TreeErrStays(lines: seq<Line>, l: nat, m: nat, e: ParseError)
    requires l <= m <= |lines| && Tree(lines, l) == Err(e)
    ensures Tree(lines, m) == Err(e)
    decreases m - l
  {
    if l < m {
      TreeErrStays(lines, l, m - 1, e);
    }
  }

  /** The second pass: every spacer's dimensions are the arrays around it; arrays get none. */
  function WithDimensions(tree: seq<Field>): (r: seq<Field>)
    requires Parented(tree)
    ensures |r| == |tree| && Parented(r) && Dimensioned(r) && DimsValid(r)
    ensures forall j :: 0 <= j < |tree| ==> r[j] == tree[j].(dimensions := r[j].dimensions)
  {
    var r := seq(|tree|, j requires 0 <= j < |tree| =>
      tree[j].(dimensions := if tree[j].Spacer() then EnclosingArrays(tree, j) else []));
    DimensionedFrame(tree, r);
    r
  }

  /** The third pass from field k on: the first field with children it may not have, or none it must have, is refused. */
  function ChildCheck(fs: seq<Field>, k: nat): (r: Result<(), ParseError>)
    ensures r.Ok? <==> forall j :: k <= j < |fs| ==>
      (fs[j].Spacer() ==> fs[j].children == []) && (fs[j].cmd == Array ==> fs[j].children != [])
    decreases |fs| - k
  {
    if k >= |fs| then Ok(())
    else if fs[k].cmd == Bit && |fs[k].children| > 0 then Err(BitHasChildren(fs[k].name, fs[k].line + 1))
    else if fs[k].cmd == Var && |fs[k].children| > 0 then Err(VarHasChildren(fs[k].name, fs[k].line + 1))
    else if fs[k].cmd == Array && |fs[k].children| < 1 then Err(ArrayWithoutChild(fs[k].name, fs[k].line + 1))
    else ChildCheck(fs, k + 1)
  }

  /**
   * A layout text parsed: the first pass, then the dimensions, then the
   * child-count check.  What is accepted has one field per declaring line,
   * unique names, every parent chosen by the rule, exact child lists,
   * dimensions from the enclosing arrays and children where they belong.
   */
  function Parse(lines: seq<Line>): (r: Result<seq<Field>, ParseError>)
    ensures r.Ok? ==> FromLines(lines, |lines|, r.value) && UniqueNames(r.value)
    ensures r.Ok? ==> Parented(r.value) && ChildrenListed(r.value)
    ensures r.Ok? ==> Dimensioned(r.value) && DimsValid(r.value) && ChildCountsOk(r.value)
  {
    match Tree(lines, |lines|)
    case Err(e) => Err(e)
    case Ok(t) =>
      var fs := WithDimensions(t);
      TreeBuilt(lines, |lines|);
      DimensionsKeepTree(lines, t, fs);
      match ChildCheck(fs, 0)
      case Err(e) => Err(e)
      case Ok(_) => Ok(fs)
  }

  /** Setting the dimensions keeps what the first pass established. */
  lemma DimensionsKeepTree(lines: seq<Line>, t: seq<Field>, fs: seq<Field>)
    requires Built(lines, |lines|, t) && fs == WithDimensions(t)
    ensures FromLines(lines, |lines|, fs) && UniqueNames(fs) && ChildrenListed(fs)
  {
    forall p | 0 <= p < |fs| ensures fs[p].children == KidsBelow(fs, p, |fs|) {
      KidsFrame(fs, t, p, |fs|);
    }
    DimensionsKeepLines(lines, t, fs);
  }

  lemma DimensionsKeepLines(lines: seq<Line>, t: seq<Field>, fs: seq<Field>)
    requires FromLines(lines, |lines|, t) && |fs| == |t|
    requires forall j :: 0 <= j < |t| ==> fs[j] == t[j].(dimensions := fs[j].dimensions)
    ensures FromLines(lines, |lines|, fs)
  {
    forall j | 0 <= j < |fs| ensures FieldFromLine(lines, |lines|, fs, j) {
      assert FieldFromLine(lines, |lines|, t, j);
    }
  }

  // ---------------------------------------------------------------------------
  // Parsing: the passes

  /** The previous element, searched for as the source does, from the last field down. */
  method LocatePreviousElement(fields: seq<Field>, indent: nat, line: nat) returns (r: Result<nat, ParseError>)
    requires |fields| > 0
    ensures r == PreviousElement(fields, |fields|, indent, line)
    ensures r.Ok? ==> r.value < |fields|
    ensures indent >= fields[|fields| - 1].indent + 2 ==> r == Ok(|fields| - 1)
    ensures fields[|fields| - 1].indent < indent < fields[|fields| - 1].indent + 2 ==>
              r == Err(IndentTooSmall(line))
    ensures indent <= fields[|fields| - 1].indent ==>
              (r.Ok? <==> exists j :: 0 <= j < |fields| && fields[j].indent == indent)
    ensures indent <= fields[|fields| - 1].indent && r.Ok? ==>
              fields[r.value].indent == indent &&
              forall j :: r.value < j < |fields| ==> fields[j].indent != indent
    ensures indent <= fields[|fields| - 1].indent && r.Err? ==> r == Err(IndentUnmatched(line))
  {
    var last := fields[|fields| - 1];
    if indent >= last.indent + 2 {
      return Ok(|fields| - 1);
    }
    if indent > last.indent {
      return Err(IndentTooSmall(line));
    }
    var i := |fields|;
    while i > 0
      invariant 0 <= i <= |fields|
      invariant forall j :: i <= j < |fields| ==> fields[j].indent != indent
    {
      if fields[i - 1].indent == indent {
        return Ok(i - 1);
      }
      i := i - 1;
    }
    return Err(IndentUnmatched(line));
  }

  /**
   * Parse a layout: one field per non-comment line, each hung from the field
   * its indentation selects; then give every spacer the arrays around it as
   * its dimensions, and check that spacers have no children and arrays have
   * at least one.
   */
  method ParseFields(lines: seq<Line>) returns (r: Result<seq<Field>, ParseError>)
    ensures r == Parse(lines)
    ensures r.Ok? ==> FromLines(lines, |lines|, r.value)
    ensures r.Ok? ==> UniqueNames(r.value)
    ensures r.Ok? ==> Parented(r.value) && ChildrenListed(r.value)
    ensures r.Ok? ==> Dimensioned(r.value) && DimsValid(r.value)
    ensures r.Ok? ==> ChildCountsOk(r.value)
  {
    var tree := BuildTree(lines);
    if tree.Err? {
      return Err(tree.error);
    }
    TreeBuilt(lines, |lines|);
    var fields := SetDimensions(tree.value);
    var checked := CheckChildren(fields);
    if checked.Err? {
      return Err(checked.error);
    }
    return Ok(fields);
  }

  /** What the first pass has built from the lines before l. */
  ghost predicate Built(lines: seq<Line>, l: nat, fields: seq<Field>)
    requires l <= |lines|
  {
    FromLines(lines, l, fields) && UniqueNames(fields) && Parented(fields) && ChildrenListed(fields) &&
    forall k :: 0 <= k < |fields| ==> fields[k].dimensions == []
  }

  /** The name table maps each field's name to its index, and holds no other name. */
  predicate Indexed(names: map<string, nat>, fields: seq<Field>)
  {
    (forall k :: 0 <= k < |fields| ==> fields[k].name in names && names[fields[k].name] == k) &&
    forall n :: n in names ==> names[n] < |fields| && fields[names[n]].name == n
  }

  /** The first pass: one field per non-comment line, hung from its parent, without dimensions. */
  method BuildTree(lines: seq<Line>) returns (r: Result<seq<Field>, ParseError>)
    ensures r == Tree(lines, |lines|)
  {
    var fields: seq<Field> := [];
    var names: map<string, nat> := map[];
    var l := 0;
    while l < |lines|
      invariant 0 <= l <= |lines|
      invariant Tree(lines, l) == Ok(fields) && Indexed(names, fields)
    {
      var next := NextLine(lines, l, fields, names);
      if next.Err? {
        TreeErrStays(lines, l + 1, |lines|, next.error);
        return Err(next.error);
      }
      fields, names := next.value.0, next.value.1;
      l := l + 1;
    }
    return Ok(fields);
  }

  /** Line l: a comment adds nothing; any other line declares a field. */
  method NextLine(lines: seq<Line>, l: nat, fields: seq<Field>, names: map<string, nat>)
    returns (r: Result<(seq<Field>, map<string, nat>), ParseError>)
    requires l < |lines|
    requires Tree(lines, l) == Ok(fields) && Indexed(names, fields)
    ensures r.Ok? ==> Tree(lines, l + 1) == Ok(r.value.0) && Indexed(r.value.1, r.value.0)
    ensures r.Err? ==> Tree(lines, l + 1) == Err(r.error)
  {
    TreeBuilt(lines, l);
    TreeStep(lines, l);
    if IsComment(lines[l]) {
      SkipComment(lines, l, fields);
      return Ok((fields, names));
    }
    r := ReadLine(lines, l, fields, names);
  }

  /** One declaring line: decode it, refuse a name already used, and hang the new field from its parent. */
  method ReadLine(lines: seq<Line>, l: nat, fields: seq<Field>, names: map<string, nat>)
    returns (r: Result<(seq<Field>, map<string, nat>), ParseError>)
    requires l < |lines| && !IsComment(lines[l])
    requires Built(lines, l, fields) && Indexed(names, fields)
    ensures r.Ok? ==> Declare(lines, l, fields) == Ok(r.value.0) && Indexed(r.value.1, r.value.0)
    ensures r.Err? ==> Declare(lines, l, fields) == Err(r.error)
    ensures r.Ok? ==> Built(lines, l + 1, r.value.0)
  {
    var ln := lines[l];
    var d := Decode(ln, l);
    if d.Err? {
      return Err(d.error);
    }
    var e := d.value;
    if e.name in names {
      assert fields[names[e.name]].name == e.name;
      return Err(DuplicateName(e.name, l + 1));
    }
    var parent := ParentFor(fields, ln.indent, l + 1);
    if parent.Err? {
      return Err(parent.error);
    }
    var f := Field(l, ln.indent, e.name, e.cmd, e.rep, parent.value, [], []);
    var after := Attach(fields, f);
    assert Declare(lines, l, fields) == Ok(after);
    DeclareBuilt(lines, l, fields);
    IndexedAppend(names, fields, after);
    return Ok((after, names[e.name := |fields|]));
  }

  /** The fields with f appended and listed among its parent's children. */
  function Attach(fields: seq<Field>, f: Field): (r: seq<Field>)
    requires f.parent.Some? ==> f.parent.value < |fields|
    ensures |r| == |fields| + 1 && r[|fields|] == f
    ensures forall k :: 0 <= k < |fields| ==> r[k] == fields[k].(children := r[k].children)
    ensures forall k :: 0 <= k < |fields| ==>
      r[k].children == fields[k].children + (if f.parent == Some(k) then [|fields|] else [])
  {
    var m := |fields|;
    (if f.parent.Some? then fields[f.parent.value := fields[f.parent.value].(children := fields[f.parent.value].children + [m])] else fields) + [f]
  }

  lemma SkipComment(lines: seq<Line>, l: nat, fields: seq<Field>)
    requires l < |lines| && IsComment(lines[l]) && Built(lines, l, fields)
    ensures Built(lines, l + 1, fields)
  {
    assert NonComment(lines, l + 1) == NonComment(lines, l);
    var next := l + 1;
    forall k | 0 <= k < |fields| ensures FieldFromLine(lines, next, fields, k) {
      assert FieldFromLine(lines, l, fields, k);
    }
  }

  lemma IndexedAppend(names: map<string, nat>, before: seq<Field>, after: seq<Field>)
    requires Indexed(names, before) && |after| == |before| + 1
    requires forall k :: 0 <= k < |before| ==> after[k].name == before[k].name
    requires after[|before|].name !in names
    ensures Indexed(names[after[|before|].name := |before|], after)
  {
  }

  /** The parent of a new field: the field its indentation hangs it from, or that field's parent. */
  method ParentFor(fields: seq<Field>, indent: nat, line: nat) returns (r: Result<Option<nat>, ParseError>)
    requires Parented(fields)
    ensures r == ParentRule(fields, |fields|, indent, line)
    ensures |fields| == 0 ==> r == Ok(None)
    ensures r.Ok? && r.value.Some? ==> r.value.value < |fields| && fields[r.value.value].indent < indent
  {
    ParentRuleSound(fields, |fields|, indent, line);
    if |fields| == 0 {
      return Ok(None);
    }
    var prev := LocatePreviousElement(fields, indent, line);
    if prev.Err? {
      return Err(prev.error);
    }
    var p := prev.value;
    if indent > fields[p].indent {
      return Ok(Some(p));
    }
    return Ok(fields[p].parent);
  }

  /** Appending the field a line declares keeps every invariant of the first pass. */
  lemma AppendField(lines: seq<Line>, l: nat, before: seq<Field>, after: seq<Field>, f: Field)
    requires l < |lines| && !IsComment(lines[l])
    requires Built(lines, l, before)
    requires forall k :: 0 <= k < |before| ==> before[k].name != f.name
    requires f.line == l && f.indent == lines[l].indent && f.dimensions == [] && f.children == []
    requires Decode(lines[l], l) == Ok(Entry(f.name, f.cmd, f.rep))
    requires f.parent.Some? ==> f.parent.value < |before| && before[f.parent.value].indent < f.indent
    requires after == Attach(before, f)
    ensures Built(lines, l + 1, after)
  {
    AppendKeepsChildrenListed(before, after, f, |before|);
    AppendKeepsFromLines(lines, l, before, after);
    AppendKeepsShape(before, after);
  }

  lemma AppendKeepsShape(before: seq<Field>, after: seq<Field>)
    requires UniqueNames(before) && Parented(before)
    requires forall k :: 0 <= k < |before| ==> before[k].dimensions == []
    requires |after| == |before| + 1
    requires forall k :: 0 <= k < |before| ==> after[k] == before[k].(children := after[k].children)
    requires forall k :: 0 <= k < |before| ==> before[k].name != after[|before|].name
    requires after[|before|].dimensions == []
    requires after[|before|].parent.Some? ==>
      after[|before|].parent.value < |before| && before[after[|before|].parent.value].indent < after[|before|].indent
    ensures UniqueNames(after) && Parented(after)
    ensures forall k :: 0 <= k < |after| ==> after[k].dimensions == []
  {
  }

  /** The second pass: each spacer's dimensions are the arrays among its ancestors, outermost first. */
  method SetDimensions(tree: seq<Field>) returns (fields: seq<Field>)
    requires Parented(tree)
    requires forall j :: 0 <= j < |tree| ==> tree[j].dimensions == []
    ensures fields == WithDimensions(tree)
    ensures |fields| == |tree| && Parented(fields) && Dimensioned(fields) && DimsValid(fields)
    ensures forall j :: 0 <= j < |tree| ==> fields[j] == tree[j].(dimensions := fields[j].dimensions)
  {
    fields := tree;
    var k := 0;
    while k < |fields|
      invariant 0 <= k <= |fields| == |tree|
      invariant forall j :: 0 <= j < |fields| ==>
        fields[j] == tree[j].(dimensions := if j < k && tree[j].Spacer() then EnclosingArrays(tree, j) else [])
    {
      if fields[k].Spacer() {
        var d := ArraysAround(tree, k);
        fields := fields[k := fields[k].(dimensions := d)];
      }
      k := k + 1;
    }
    DimensionedFrame(tree, fields);
  }

  /** Walk up from a field's parent, collecting the arrays, the outermost ending up first. */
  method ArraysAround(tree: seq<Field>, k: nat) returns (d: seq<nat>)
    requires ParentsBefore(tree) && k < |tree|
    ensures d == EnclosingArrays(tree, k)
  {
    d := [];
    var q: Option<nat> := tree[k].parent;
    while q.Some?
      invariant q.Some? ==> q.value < |tree|
      invariant EnclosingArrays(tree, k) == Above(tree, q) + d
      decreases if q.Some? then q.value + 1 else 0
    {
      var a := q.value;
      if tree[a].cmd == Array {
        d := [a] + d;
      }
      q := tree[a].parent;
    }
  }

  lemma DimensionedFrame(tree: seq<Field>, fields: seq<Field>)
    requires Parented(tree) && |fields| == |tree|
    requires forall j :: 0 <= j < |fields| ==>
      fields[j] == tree[j].(dimensions := if tree[j].Spacer() then EnclosingArrays(tree, j) else [])
    ensures Parented(fields) && Dimensioned(fields) && DimsValid(fields)
  {
    assert ParentsBefore(fields);
    forall j | 0 <= j < |fields|
      ensures fields[j].dimensions == (if fields[j].Spacer() then EnclosingArrays(fields, j) else [])
    {
      AboveFrame(fields, tree, fields[j].parent);
    }
  }

  /** The third pass: spacers have no children and arrays have at least one. */
  method CheckChildren(fields: seq<Field>) returns (r: Result<(), ParseError>)
    ensures r == ChildCheck(fields, 0)
    ensures r.Ok? <==> ChildCountsOk(fields)
  {
    var k := 0;
    while k < |fields|
      invariant 0 <= k <= |fields|
      invariant ChildCheck(fields, k) == ChildCheck(fields, 0)
      invariant forall j :: 0 <= j < k ==>
        (fields[j].Spacer() ==> fields[j].children == []) && (fields[j].cmd == Array ==> fields[j].children != [])
    {
      var f := fields[k];
      if f.cmd == Bit && |f.children| > 0 {
        return Err(BitHasChildren(f.name, f.line + 1));
      }
      if f.cmd == Var && |f.children| > 0 {
        return Err(VarHasChildren(f.name, f.line + 1));
      }
      if f.cmd == Array && |f.children| < 1 {
        return Err(ArrayWithoutChild(f.name, f.line + 1));
      }
      k := k + 1;
    }
    return Ok(());
  }

  /** Appending a field and listing it among its parent's children keeps every child list exact. */
  lemma AppendKeepsChildrenListed(before: seq<Field>, after: seq<Field>, f: Field, m: nat)
    requires m == |before| && ChildrenListed(before) && ParentsBefore(before)
    requires f.children == [] && (f.parent.Some? ==> f.parent.value < m)
    requires after == Attach(before, f)
    ensures ChildrenListed(after)
  {
    forall p | 0 <= p < |after| ensures after[p].children == KidsBelow(after, p, |after|) {
      AppendKeepsKids(before, after, f, m, p);
    }
  }

  /** The step of AppendKeepsChildrenListed for one field p. */
  lemma AppendKeepsKids(before: seq<Field>, after: seq<Field>, f: Field, m: nat, p: nat)
    requires m == |before| && ChildrenListed(before) && ParentsBefore(before)
    requires f.children == [] && (f.parent.Some? ==> f.parent.value < m)
    requires after == Attach(before, f) && p <= m
    ensures after[p].children == KidsBelow(after, p, m + 1)
  {
    assert forall k :: 0 <= k < m ==> before[k].parent == after[k].parent;
    KidsFrame(before, after, p, m);
    assert KidsBelow(after, p, m + 1) == KidsBelow(after, p, m) + (if f.parent == Some(p) then [m] else []);
    if p == m {
      NoKidsYet(before, m, m);
    } else {
      assert before[p].children == KidsBelow(before, p, m);
    }
  }

  lemma {:induction false} NoKidsYet(fs: seq<Field>, p: nat, n: nat)
    requires n <= |fs| && n <= p && ParentsBefore(fs)
    ensures KidsBelow(fs, p, n) == []
  {
    if n > 0 {
      NoKidsYet(fs, p, n - 1);
    }
  }

  lemma AppendKeepsFromLines(lines: seq<Line>, l: nat, before: seq<Field>, after: seq<Field>)
    requires l < |lines| && !IsComment(lines[l])
    requires FromLines(lines, l, before) && |after| == |before| + 1
    requires forall k :: 0 <= k < |before| ==>
      after[k].line == before[k].line && after[k].indent == before[k].indent &&
      after[k].name == before[k].name && after[k].cmd == before[k].cmd && after[k].rep == before[k].rep
    requires var f := after[|before|];
      f.line == l && f.indent == lines[l].indent && Decode(lines[l], l) == Ok(Entry(f.name, f.cmd, f.rep))
    ensures FromLines(lines, l + 1, after)
  {
    var next := l + 1;
    assert NonComment(lines, next) == NonComment(lines, l) + [l];
    forall k | 0 <= k < |after| ensures FieldFromLine(lines, next, after, k) {
      if k < |before| {
        EarlierFieldFromLine(lines, l, before, after, k);
      } else {
        NewFieldFromLine(lines, l, after, k);
      }
    }
  }

  /** The field a line declares comes from that line. */
  lemma NewFieldFromLine(lines: seq<Line>, l: nat, after: seq<Field>, k: nat)
    requires l < |lines| && k < |after| && |after| == |NonComment(lines, l + 1)|
    requires NonComment(lines, l + 1)[k] == l
    requires after[k].line == l && after[k].indent == lines[l].indent
    requires Decode(lines[l], l) == Ok(Entry(after[k].name, after[k].cmd, after[k].rep))
    ensures FieldFromLine(lines, l + 1, after, k)
  {
  }

  /** A field already declared still comes from its own line once one more line is read. */
  lemma EarlierFieldFromLine(lines: seq<Line>, l: nat, before: seq<Field>, after: seq<Field>, k: nat)
    requires l < |lines| && FromLines(lines, l, before) && k < |before| && |after| == |before| + 1
    requires NonComment(lines, l + 1) == NonComment(lines, l) + [l]
    requires after[k].line == before[k].line && after[k].indent == before[k].indent &&
      after[k].name == before[k].name && after[k].cmd == before[k].cmd && after[k].rep == before[k].rep
    ensures FieldFromLine(lines, l + 1, after, k)
  {
    assert FieldFromLine(lines, l, before, k);
  }

  /** A declaring line that decodes, has a fresh name and a parent by the rule is appended. */
  lemma DeclareAppends(lines: seq<Line>, l: nat, fs: seq<Field>, d: Entry, p: Option<nat>)
    requires l < |lines| && Parented(fs)
    requires !IsComment(lines[l]) && Decode(lines[l], l) == Ok(d) && !NameTaken(fs, d.name)
    requires ParentRule(fs, |fs|, lines[l].indent, l + 1) == Ok(p)
    ensures Declare(lines, l, fs) == Ok(Attach(fs, Field(l, lines[l].indent, d.name, d.cmd, d.rep, p, [], [])))
  {
  }

  /** The words the example layouts use. */
  lemma ExampleWords()
    ensures Lower("array") == "array" && Lower("bit") == "bit" && Lower("var") == "var"
    ensures AllDigits("2") && DigitsValue("2") == 2
    ensures AllDigits("4") && DigitsValue("4") == 4
    ensures AllDigits("5") && DigitsValue("5") == 5
  {
    assert DigitsValue("2") == 10 * DigitsValue("") + 2;
    assert DigitsValue("4") == 10 * DigitsValue("") + 4;
    assert DigitsValue("5") == 10 * DigitsValue("") + 5;
  }

  /** A bit cannot enclose other fields: the layout `a bit` / `  b var 4` is refused at line 1. */
  lemma BitWithChildRefused(lines: seq<Line>)
    requires lines == [Line(0, ["a", "bit"]), Line(2, ["b", "var", "4"])]
    ensures Parse(lines) == Err(BitHasChildren("a", 1))
  {
    ExampleWords();
    var fa := Field(0, 0, "a", Bit, 1, None, [], []);
    var fb := Field(1, 2, "b", Var, 4, Some(0), [], []);
    DeclareAppends(lines, 0, [], Entry("a", Bit, 1), None);
    assert Attach([], fa) == [fa];
    TreeStep(lines, 0);
    DeclareAppends(lines, 1, [fa], Entry("b", Var, 4), Some(0));
    TreeStep(lines, 1);
    var t := Attach([fa], fb);
    assert t[0].children == [1];
    assert WithDimensions(t)[0].children == [1];
  }

  /** The layout of the source's parse test, one line per field. */
  predicate IsTestLayout(L: seq<Line>)
  {
    |L| == 9 &&
    L[0] == Line(0, ["A", "array", "2"]) &&
    L[1] == Line(2, ["a", "var", "4"]) &&
    L[2] == Line(2, ["b", "bit"]) &&
    L[3] == Line(2, ["B", "array", "4"]) &&
    L[4] == Line(4, ["a1", "bit"]) &&
    L[5] == Line(4, ["b1", "var", "2"]) &&
    L[6] == Line(4, ["C", "array", "2"]) &&
    L[7] == Line(6, ["a2", "bit"]) &&
    L[8] == Line(6, ["b2", "var", "5"])
  }

  /**
   * The fields of the test layout after its first n lines, n <= 9: the first n
   * fields, each listing the children declared so far.
   */
  function TestStage(n: nat): seq<Field>
  {
    if n == 0 then []
    else if n == 1 then
      [Field(0, 0, "A", Array, 2, None, [], [])]
    else if n == 2 then
      [Field(0, 0, "A", Array, 2, None, [], [1]),
       Field(1, 2, "a", Var, 4, Some(0), [], [])]
    else if n == 3 then
      [Field(0, 0, "A", Array, 2, None, [], [1, 2]),
       Field(1, 2, "a", Var, 4, Some(0), [], []),
       Field(2, 2, "b", Bit, 1, Some(0), [], [])]
    else if n == 4 then
      [Field(0, 0, "A", Array, 2, None, [], [1, 2, 3]),
       Field(1, 2, "a", Var, 4, Some(0), [], []),
       Field(2, 2, "b", Bit, 1, Some(0), [], []),
       Field(3, 2, "B", Array, 4, Some(0), [], [])]
    else if n == 5 then
      [Field(0, 0, "A", Array, 2, None, [], [1, 2, 3]),
       Field(1, 2, "a", Var, 4, Some(0), [], []),
       Field(2, 2, "b", Bit, 1, Some(0), [], []),
       Field(3, 2, "B", Array, 4, Some(0), [], [4]),
       Field(4, 4, "a1", Bit, 1, Some(3), [], [])]
    else if n == 6 then
      [Field(0, 0, "A", Array, 2, None, [], [1, 2, 3]),
       Field(1, 2, "a", Var, 4, Some(0), [], []),
       Field(2, 2, "b", Bit, 1, Some(0), [], []),
       Field(3, 2, "B", Array, 4, Some(0), [], [4, 5]),
       Field(4, 4, "a1", Bit, 1, Some(3), [], []),
       Field(5, 4, "b1", Var, 2, Some(3), [], [])]
    else if n == 7 then
      [Field(0, 0, "A", Array, 2, None, [], [1, 2, 3]),
       Field(1, 2, "a", Var, 4, Some(0), [], []),
       Field(2, 2, "b", Bit, 1, Some(0), [], []),
       Field(3, 2, "B", Array, 4, Some(0), [], [4, 5, 6]),
       Field(4, 4, "a1", Bit, 1, Some(3), [], []),
       Field(5, 4, "b1", Var, 2, Some(3), [], []),
       Field(6, 4, "C", Array, 2, Some(3), [], [])]
    else if n == 8 then
      [Field(0, 0, "A", Array, 2, None, [], [1, 2, 3]),
       Field(1, 2, "a", Var, 4, Some(0), [], []),
       Field(2, 2, "b", Bit, 1, Some(0), [], []),
       Field(3, 2, "B", Array, 4, Some(0), [], [4, 5, 6]),
       Field(4, 4, "a1", Bit, 1, Some(3), [], []),
       Field(5, 4, "b1", Var, 2, Some(3), [], []),
       Field(6, 4, "C", Array, 2, Some(3), [], [7]),
       Field(7, 6, "a2", Bit, 1, Some(6), [], [])]
    else
      [Field(0, 0, "A", Array, 2, None, [], [1, 2, 3]),
       Field(1, 2, "a", Var, 4, Some(0), [], []),
       Field(2, 2, "b", Bit, 1, Some(0), [], []),
       Field(3, 2, "B", Array, 4, Some(0), [], [4, 5, 6]),
       Field(4, 4, "a1", Bit, 1, Some(3), [], []),
       Field(5, 4, "b1", Var, 2, Some(3), [], []),
       Field(6, 4, "C", Array, 2, Some(3), [], [7, 8]),
       Field(7, 6, "a2", Bit, 1, Some(6), [], []),
       Field(8, 6, "b2", Var, 5, Some(6), [], [])]
  }

  /** Attach, written out for a field with a parent. */
  lemma AttachUnder(fs: seq<Field>, f: Field)
    requires f.parent.Some? && f.parent.value < |fs|
    ensures var p := f.parent.value;
      Attach(fs, f) == fs[p := fs[p].(children := fs[p].children + [|fs|])] + [f]
  {
  }

  lemma TestAttach0()
    ensures Attach(TestStage(0), Field(0, 0, "A", Array, 2, None, [], [])) == TestStage(1)
  {
    assert Attach(TestStage(0), Field(0, 0, "A", Array, 2, None, [], [])) == [Field(0, 0, "A", Array, 2, None, [], [])];
  }

  lemma TestStep0(L: seq<Line>)
    requires IsTestLayout(L) && Parented(TestStage(0))
    ensures Declare(L, 0, TestStage(0)) == Ok(TestStage(1))
  {
    ExampleWords();
    DeclareAppends(L, 0, TestStage(0), Entry("A", Array, 2), None);
    TestAttach0();
  }

  lemma TestAttach1()
    ensures Attach(TestStage(1), Field(1, 2, "a", Var, 4, Some(0), [], [])) == TestStage(2)
  {
    var fs := TestStage(1);
    var f := Field(1, 2, "a", Var, 4, Some(0), [], []);
    AttachUnder(fs, f);
    assert fs[0].children + [1] == [1];
    assert fs[0 := fs[0].(children := [1])] + [f] == TestStage(2);
  }

  lemma TestStep1(L: seq<Line>)
    requires IsTestLayout(L) && Parented(TestStage(1))
    ensures Declare(L, 1, TestStage(1)) == Ok(TestStage(2))
  {
    ExampleWords();
    DeclareAppends(L, 1, TestStage(1), Entry("a", Var, 4), Some(0));
    TestAttach1();
  }

  lemma TestAttach2()
    ensures Attach(TestStage(2), Field(2, 2, "b", Bit, 1, Some(0), [], [])) == TestStage(3)
  {
    var fs := TestStage(2);
    var f := Field(2, 2, "b", Bit, 1, Some(0), [], []);
    AttachUnder(fs, f);
    assert fs[0].children + [2] == [1, 2];
    assert fs[0 := fs[0].(children := [1, 2])] + [f] == TestStage(3);
  }

  lemma TestStep2(L: seq<Line>)
    requires IsTestLayout(L) && Parented(TestStage(2))
    ensures Declare(L, 2, TestStage(2)) == Ok(TestStage(3))
  {
    ExampleWords();
    DeclareAppends(L, 2, TestStage(2), Entry("b", Bit, 1), Some(0));
    TestAttach2();
  }

  lemma TestAttach3()
    ensures Attach(TestStage(3), Field(3, 2, "B", Array, 4, Some(0), [], [])) == TestStage(4)
  {
    var fs := TestStage(3);
    var f := Field(3, 2, "B", Array, 4, Some(0), [], []);
    AttachUnder(fs, f);
    assert fs[0].children + [3] == [1, 2, 3];
    assert fs[0 := fs[0].(children := [1, 2, 3])] + [f] == TestStage(4);
  }

  lemma TestStep3(L: seq<Line>)
    requires IsTestLayout(L) && Parented(TestStage(3))
    ensures Declare(L, 3, TestStage(3)) == Ok(TestStage(4))
  {
    ExampleWords();
    DeclareAppends(L, 3, TestStage(3), Entry("B", Array, 4), Some(0));
    TestAttach3();
  }

  lemma TestAttach4()
    ensures Attach(TestStage(4), Field(4, 4, "a1", Bit, 1, Some(3), [], [])) == TestStage(5)
  {
    var fs := TestStage(4);
    var f := Field(4, 4, "a1", Bit, 1, Some(3), [], []);
    AttachUnder(fs, f);
    assert fs[3].children + [4] == [4];
    assert fs[3 := fs[3].(children := [4])] + [f] == TestStage(5);
  }

  lemma TestStep4(L: seq<Line>)
    requires IsTestLayout(L) && Parented(TestStage(4))
    ensures Declare(L, 4, TestStage(4)) == Ok(TestStage(5))
  {
    ExampleWords();
    DeclareAppends(L, 4, TestStage(4), Entry("a1", Bit, 1), Some(3));
    TestAttach4();
  }

  lemma TestAttach5()
    ensures Attach(TestStage(5), Field(5, 4, "b1", Var, 2, Some(3), [], [])) == TestStage(6)
  {
    var fs := TestStage(5);
    var f := Field(5, 4, "b1", Var, 2, Some(3), [], []);
    AttachUnder(fs, f);
    assert fs[3].children + [5] == [4, 5];
    assert fs[3 := fs[3].(children := [4, 5])] + [f] == TestStage(6);
  }

  lemma TestStep5(L: seq<Line>)
    requires IsTestLayout(L) && Parented(TestStage(5))
    ensures Declare(L, 5, TestStage(5)) == Ok(TestStage(6))
  {
    ExampleWords();
    DeclareAppends(L, 5, TestStage(5), Entry("b1", Var, 2), Some(3));
    TestAttach5();
  }

  lemma TestAttach6()
    ensures Attach(TestStage(6), Field(6, 4, "C", Array, 2, Some(3), [], [])) == TestStage(7)
  {
    var fs := TestStage(6);
    var f := Field(6, 4, "C", Array, 2, Some(3), [], []);
    AttachUnder(fs, f);
    assert fs[3].children + [6] == [4, 5, 6];
    assert fs[3 := fs[3].(children := [4, 5, 6])] + [f] == TestStage(7);
  }

  lemma TestStep6(L: seq<Line>)
    requires IsTestLayout(L) && Parented(TestStage(6))
    ensures Declare(L, 6, TestStage(6)) == Ok(TestStage(7))
  {
    ExampleWords();
    DeclareAppends(L, 6, TestStage(6), Entry("C", Array, 2), Some(3));
    TestAttach6();
  }

  lemma TestAttach7()
    ensures Attach(TestStage(7), Field(7, 6, "a2", Bit, 1, Some(6), [], [])) == TestStage(8)
  {
    var fs := TestStage(7);
    var f := Field(7, 6, "a2", Bit, 1, Some(6), [], []);
    AttachUnder(fs, f);
    assert fs[6].children + [7] == [7];
    assert fs[6 := fs[6].(children := [7])] + [f] == TestStage(8);
  }

  lemma TestStep7(L: seq<Line>)
    requires IsTestLayout(L) && Parented(TestStage(7))
    ensures Declare(L, 7, TestStage(7)) == Ok(TestStage(8))
  {
    ExampleWords();
    DeclareAppends(L, 7, TestStage(7), Entry("a2", Bit, 1), Some(6));
    TestAttach7();
  }

  lemma TestAttach8()
    ensures Attach(TestStage(8), Field(8, 6, "b2", Var, 5, Some(6), [], [])) == TestStage(9)
  {
    var fs := TestStage(8);
    var f := Field(8, 6, "b2", Var, 5, Some(6), [], []);
    AttachUnder(fs, f);
    assert fs[6].children + [8] == [7, 8];
    assert fs[6 := fs[6].(children := [7, 8])] + [f] == TestStage(9);
  }

  lemma TestStep8(L: seq<Line>)
    requires IsTestLayout(L) && Parented(TestStage(8))
    ensures Declare(L, 8, TestStage(8)) == Ok(TestStage(9))
  {
    ExampleWords();
    DeclareAppends(L, 8, TestStage(8), Entry("b2", Var, 5), Some(6));
    TestAttach8();
  }

  /** The first pass over the test layout: each parent is the one its line's indentation selects. */
  lemma TestLayoutTree(L: seq<Line>)
    requires IsTestLayout(L)
    ensures Tree(L, 9) == Ok(TestStage(9))
  {
    TestStep0(L);
    TreeStep(L, 0);
    TestStep1(L);
    TreeStep(L, 1);
    TestStep2(L);
    TreeStep(L, 2);
    TestStep3(L);
    TreeStep(L, 3);
    TestStep4(L);
    TreeStep(L, 4);
    TestStep5(L);
    TreeStep(L, 5);
    TestStep6(L);
    TreeStep(L, 6);
    TestStep7(L);
    TreeStep(L, 7);
    TestStep8(L);
    TreeStep(L, 8);
  }

  /**
   * The source's parse test is accepted: b1 lies inside A and B, so its
   * memory has 2 * 4 = 8 elements; b2 lies inside A, B and C, so its memory
   * has 2 * 4 * 2 = 16.
   */
  lemma TestLayoutParses(L: seq<Line>)
    requires IsTestLayout(L)
    ensures Parse(L).Ok? && |Parse(L).value| == 9
    ensures var fs := Parse(L).value;
      fs[5].name == "b1" && fs[5].dimensions == [0, 3] && DimReps(fs, 5) == [2, 4] && WrappedProduct(DimReps(fs, 5)) == 8 &&
      fs[8].name == "b2" && fs[8].dimensions == [0, 3, 6] && DimReps(fs, 8) == [2, 4, 2] && Product(DimReps(fs, 8)) == 16
  {
    TestLayoutTree(L);
    var t := Tree(L, 9).value;
    TestStageIsTree(t);
    TestLayoutChildren(t);
    ParseAccepts(L, t);
    TestLayoutB1(t);
    TestLayoutB2(t);
  }

  /** The fields of the test layout after the first pass, one by one. */
  predicate IsTestTree(t: seq<Field>)
  {
    |t| == 9 &&
    t[0] == Field(0, 0, "A", Array, 2, None, [], [1, 2, 3]) &&
    t[1] == Field(1, 2, "a", Var, 4, Some(0), [], []) &&
    t[2] == Field(2, 2, "b", Bit, 1, Some(0), [], []) &&
    t[3] == Field(3, 2, "B", Array, 4, Some(0), [], [4, 5, 6]) &&
    t[4] == Field(4, 4, "a1", Bit, 1, Some(3), [], []) &&
    t[5] == Field(5, 4, "b1", Var, 2, Some(3), [], []) &&
    t[6] == Field(6, 4, "C", Array, 2, Some(3), [], [7, 8]) &&
    t[7] == Field(7, 6, "a2", Bit, 1, Some(6), [], []) &&
    t[8] == Field(8, 6, "b2", Var, 5, Some(6), [], [])
  }

  /** The child-count check does not look at dimensions. */
  lemma ChildCountsKept(t: seq<Field>)
    requires ChildCountsOk(t) && Parented(t)
    ensures ChildCheck(WithDimensions(t), 0).Ok?
  {
    var fs := WithDimensions(t);
    assert forall j :: 0 <= j < |t| ==> fs[j].children == t[j].children && fs[j].cmd == t[j].cmd;
  }

  lemma TestStageIsTree(t: seq<Field>)
    requires t == TestStage(9)
    ensures IsTestTree(t)
  {
  }

  /** A text whose first pass succeeds and whose fields pass the child-count check is accepted. */
  lemma ParseAccepts(lines: seq<Line>, t: seq<Field>)
    requires Tree(lines, |lines|) == Ok(t) && ChildCheck(WithDimensions(t), 0).Ok?
    ensures Parse(lines) == Ok(WithDimensions(t))
  {
  }

  /** The third pass accepts the test layout: its bits and vars have no children and its arrays have some. */
  lemma TestLayoutChildren(t: seq<Field>)
    requires IsTestTree(t)
    ensures Parented(t) && ChildCheck(WithDimensions(t), 0).Ok?
  {
    TestTreeParented(t);
    TestTreeCounts(t);
    ChildCountsKept(t);
  }

  lemma TestTreeParented(t: seq<Field>)
    requires IsTestTree(t)
    ensures Parented(t)
  {
    ParentedByIndex(t);
  }

  lemma TestTreeCounts(t: seq<Field>)
    requires IsTestTree(t)
    ensures ChildCountsOk(t)
  {
  }

  /** b1 lies inside the arrays A and B, b2 inside A, B and C. */
  lemma TestLayoutEnclosing(t: seq<Field>)
    requires IsTestTree(t) && ParentsBefore(t)
    ensures EnclosingArrays(t, 5) == [0, 3] && EnclosingArrays(t, 8) == [0, 3, 6]
  {
    assert Above(t, Some(0)) == [0];
    assert Above(t, Some(3)) == [0, 3];
  }

  /** Field j after the second pass, written out. */
  lemma WithDimensionsAt(tree: seq<Field>, j: nat)
    requires Parented(tree) && j < |tree|
    ensures WithDimensions(tree)[j] == tree[j].(dimensions := if tree[j].Spacer() then EnclosingArrays(tree, j) else [])
  {
  }

  /** The second pass gives b1 the dimensions A and B, and b2 the dimensions A, B and C. */
  lemma TestLayoutDims(t: seq<Field>)
    requires IsTestTree(t) && Parented(t)
    ensures WithDimensions(t)[5].dimensions == [0, 3] && WithDimensions(t)[8].dimensions == [0, 3, 6]
  {
    TestLayoutEnclosing(t);
    WithDimensionsAt(t, 5);
    WithDimensionsAt(t, 8);
  }

  /** b1 lies inside A and B: its memory has 2 * 4 = 8 elements. */
  lemma TestLayoutB1(t: seq<Field>)
    requires IsTestTree(t) && Parented(t)
    ensures var fs := WithDimensions(t);
      fs[5].name == "b1" && fs[5].dimensions == [0, 3] && DimReps(fs, 5) == [2, 4] && WrappedProduct(DimReps(fs, 5)) == 8
  {
    TestLayoutRepsB1(t);
    DimProductExample();
  }

  lemma TestLayoutRepsB1(t: seq<Field>)
    requires IsTestTree(t) && Parented(t)
    ensures var fs := WithDimensions(t);
      fs[5].name == "b1" && fs[5].dimensions == [0, 3] && DimReps(fs, 5) == [2, 4]
  {
    var fs := WithDimensions(t);
    TestLayoutDims(t);
    DimRepsTwo(fs, 5, 0, 3);
  }

  /** b2 lies inside A, B and C: its memory has 2 * 4 * 2 = 16 elements. */
  lemma TestLayoutB2(t: seq<Field>)
    requires IsTestTree(t) && Parented(t)
    ensures var fs := WithDimensions(t);
      fs[8].name == "b2" && fs[8].dimensions == [0, 3, 6] && DimReps(fs, 8) == [2, 4, 2] && Product(DimReps(fs, 8)) == 16
  {
    TestLayoutRepsB2(t);
    DimProductExample();
  }

  lemma TestLayoutRepsB2(t: seq<Field>)
    requires IsTestTree(t) && Parented(t)
    ensures var fs := WithDimensions(t);
      fs[8].name == "b2" && fs[8].dimensions == [0, 3, 6] && DimReps(fs, 8) == [2, 4, 2]
  {
    var fs := WithDimensions(t);
    TestLayoutDims(t);
    DimRepsThree(fs, 8, 0, 3, 6);
  }

  lemma DimRepsTwo(fs: seq<Field>, k: nat, a: nat, b: nat)
    requires DimsValid(fs) && k < |fs| && fs[k].dimensions == [a, b]
    requires a < |fs| && b < |fs|
    ensures DimReps(fs, k) == [fs[a].rep, fs[b].rep]
  {
  }

  lemma DimRepsThree(fs: seq<Field>, k: nat, a: nat, b: nat, c: nat)
    requires DimsValid(fs) && k < |fs| && fs[k].dimensions == [a, b, c]
    requires a < |fs| && b < |fs| && c < |fs|
    ensures DimReps(fs, k) == [fs[a].rep, fs[b].rep, fs[c].rep]
  {
  }

  lemma ParseExampleLines()
    ensures NonComment([Line(0, ["#"]), Line(0, ["a", "var", "4"])], 2) == [1]
  {
  }

  // ---------------------------------------------------------------------------
  // Dimensions and memory

  /** The repetitions of the arrays around field k. */
  function DimReps(fs: seq<Field>, k: nat): (r: seq<nat>)
    requires k < |fs| && DimsValid(fs)
    ensures |r| == |fs[k].dimensions|
  {
    seq(|fs[k].dimensions|, c requires 0 <= c < |fs[k].dimensions| => fs[fs[k].dimensions[c]].rep)
  }

  /** The exact product of the repetitions. */
  function Product(reps: seq<nat>): nat
  {
    if |reps| == 0 then 1 else Product(reps[..|reps| - 1]) * reps[|reps| - 1]
  }

  /** The product as Java's int multiplication computes it, one factor at a time. */
  function WrappedProduct(reps: seq<nat>): (r: int)
    ensures IsInt(r)
  {
    if |reps| == 0 then 1 else Wrap32(WrappedProduct(reps[..|reps| - 1]) * reps[|reps| - 1])
  }

  /** When the product fits in an int, the wrapped product is the product. */
  lemma {:induction false} WrappedProductExact(reps: seq<nat>)
    requires Product(reps) <= IntMax
    requires forall c :: 0 <= c < |reps| ==> reps[c] >= 1
    ensures WrappedProduct(reps) == Product(reps)
  {
    if |reps| > 0 {
      var init := reps[..|reps| - 1];
      var last := reps[|reps| - 1];
      assert Product(init) <= Product(reps) by {
        MulGrows(last, Product(init));
      }
      WrappedProductExact(init);
    }
  }

  /**
   * The number of elements a field's backing memory has (the source's
   * dimProduct): 1 with no dimensions, the one repetition with one, and the
   * int product of all of them otherwise.
   */
  method DimProduct(reps: seq<nat>) returns (n: int)
    requires forall c :: 0 <= c < |reps| ==> reps[c] <= IntMax
    ensures n == WrappedProduct(reps)
  {
    if |reps| == 0 {
      return 1;
    }
    if |reps| == 1 {
      assert reps[..0] == [];
      return reps[0];
    }
    n := 1;
    for i := 0 to |reps|
      invariant n == WrappedProduct(reps[..i])
    {
      assert reps[..i + 1][..i] == reps[..i];
      n := Wrap32(n * reps[i]);
    }
    assert reps[..|reps|] == reps;
  }

  lemma DimProductExample()
    ensures Product([2, 4]) == 8 && WrappedProduct([2, 4]) == 8
    ensures Product([2, 4, 2]) == 16
  {
    assert [2, 4][..1] == [2];
    assert [2, 4, 2][..2] == [2, 4];
  }

  /**
   * Row-major offset of an index tuple, first index outermost: the source's
   * convolute, one dimension at a time from the second index on.  The first
   * index is taken as it is; every later one must lie within its dimension.
   */
  function ConvoluteFrom(reps: seq<nat>, idx: seq<int>, c: nat, acc: int): (r: Result<int, string>)
    ensures r.Ok? <==> forall d :: c <= d < |idx| ==> IndexInRange(reps, idx, d)
    ensures r.Ok? && IsInt(acc) ==> IsInt(r.value)
    decreases |idx| - c
  {
    if c >= |idx| then Ok(acc)
    else if c >= |reps| then assert !IndexInRange(reps, idx, c); Err("No such dimension")
    else if idx[c] < 0 then assert !IndexInRange(reps, idx, c); Err("Index negative")
    else if idx[c] >= reps[c] then
      assert !IndexInRange(reps, idx, c); Err("Index is greater than or equal to its dimension")
    else ConvoluteFrom(reps, idx, c + 1, Wrap32(acc * reps[c] + idx[c]))
  }

  /** Index d names an existing dimension and lies within it. */
  predicate IndexInRange(reps: seq<nat>, idx: seq<int>, d: nat)
    requires d < |idx|
  {
    d < |reps| && 0 <= idx[d] < reps[d]
  }

  /** Convolute succeeds exactly when there is an index and every index after the first is in range. */
  function Convolute(reps: seq<nat>, idx: seq<int>): (r: Result<int, string>)
    ensures r.Ok? <==> |idx| > 0 && forall d :: 1 <= d < |idx| ==> IndexInRange(reps, idx, d)
  {
    if |idx| == 0 then Err("No index") else ConvoluteFrom(reps, idx, 1, idx[0])
  }

  /** The source's convolute loop, proved to compute Convolute. */
  method ConvoluteLoop(reps: seq<nat>, idx: seq<int>) returns (r: Result<int, string>)
    ensures r == Convolute(reps, idx)
  {
    if |idx| == 0 {
      return Err("No index");
    }
    var i := idx[0];
    var c := 1;
    while c < |idx|
      invariant 1 <= c <= |idx|
      invariant ConvoluteFrom(reps, idx, c, i) == Convolute(reps, idx)
    {
      if c >= |reps| {
        return Err("No such dimension");
      }
      var d := reps[c];
      var v := idx[c];
      if v < 0 {
        return Err("Index negative");
      }
      if v >= d {
        return Err("Index is greater than or equal to its dimension");
      }
      i := Wrap32(i * d + v);
      c := c + 1;
    }
    return Ok(i);
  }

  /** The offset of the first c indices of a tuple, in row-major order. */
  function RowMajor(reps: seq<nat>, idx: seq<int>, c: nat): int
    requires c <= |idx| && c <= |reps|
  {
    if c == 0 then 0 else RowMajor(reps, idx, c - 1) * reps[c - 1] + idx[c - 1]
  }

  predicate InRange(reps: seq<nat>, idx: seq<int>)
  {
    |idx| == |reps| && forall c :: 0 <= c < |idx| ==> 0 <= idx[c] < reps[c]
  }

  /**
   * With every index inside its dimension and a memory whose size fits in
   * an int, convolute gives the row-major offset, which addresses an element
   * of the backing memory.
   */
  lemma ConvoluteIsRowMajor(reps: seq<nat>, idx: seq<int>)
    requires |idx| >= 1 && InRange(reps, idx)
    requires Product(reps) <= IntMax
    ensures Convolute(reps, idx) == Ok(RowMajor(reps, idx, |idx|))
    ensures 0 <= RowMajor(reps, idx, |idx|) < Product(reps)
  {
    assert RowMajor(reps, idx, 1) == idx[0];
    var c := 1;
    while c < |idx|
      invariant 1 <= c <= |idx|
      invariant ConvoluteFrom(reps, idx, c, RowMajor(reps, idx, c)) == Convolute(reps, idx)
      invariant 0 <= RowMajor(reps, idx, c) < Product(reps[..c])
    {
      RowMajorStep(reps, idx, c);
      c := c + 1;
    }
    assert reps[..|idx|] == reps;
  }

  lemma RowMajorStep(reps: seq<nat>, idx: seq<int>, c: nat)
    requires 1 <= c < |idx| && InRange(reps, idx)
    requires Product(reps) <= IntMax
    requires 0 <= RowMajor(reps, idx, c) < Product(reps[..c])
    ensures 0 <= RowMajor(reps, idx, c + 1) < Product(reps[..c + 1])
    ensures Wrap32(RowMajor(reps, idx, c) * reps[c] + idx[c]) == RowMajor(reps, idx, c + 1)
  {
    var a := RowMajor(reps, idx, c);
    var p := Product(reps[..c]);
    var d := reps[c];
    assert reps[..c + 1][..c] == reps[..c];
    assert Product(reps[..c + 1]) == p * d;
    assert RowMajor(reps, idx, c + 1) == a * d + idx[c];
    StepBound(a, p, d, idx[c]);
    PrefixProductBound(reps, c + 1);
  }

  /** One more row-major digit stays below the product of one more dimension. */
  lemma StepBound(a: int, p: int, d: int, i: int)
    requires 0 <= a < p && 0 <= i < d
    ensures 0 <= a * d + i < p * d
  {
    MulMonotone(a, p - 1, d);
    assert (p - 1) * d == p * d - d;
    assert 0 <= a * d;
  }

  lemma MulGrows(a: int, d: int)
    requires a >= 1 && d >= 0
    ensures a * d >= d
  {
    assert a * d == (a - 1) * d + d;
    assert (a - 1) * d >= 0;
  }

  lemma MulMonotone(a: int, b: int, d: int)
    requires 0 <= a <= b && d >= 0
    ensures a * d <= b * d
  {
    assert b * d - a * d == (b - a) * d;
  }

  /** A prefix of the dimensions has no larger product than all of them, when none is zero; a zero makes both zero. */
  lemma {:induction false} PrefixProductBound(reps: seq<nat>, c: nat)
    requires c <= |reps|
    requires forall i :: 0 <= i < |reps| ==> reps[i] >= 1
    ensures Product(reps[..c]) <= Product(reps)
    decreases |reps| - c
  {
    if c < |reps| {
      var init := reps[..|reps| - 1];
      assert reps[..c] == init[..c];
      PrefixProductBound(init, c);
      MulGrows(reps[|reps| - 1], Product(init));
    } else {
      assert reps[..c] == reps;
    }
  }

  /** Row-major placement in a 2 by 3 array: element (x, y) sits at x * 3 + y. */
  lemma TwoByThree(x: int, y: int)
    requires 0 <= x < 2 && 0 <= y < 3
    ensures Convolute([2, 3], [x, y]) == Ok(x * 3 + y)
  {
    assert ConvoluteFrom([2, 3], [x, y], 2, x * 3 + y) == Ok(x * 3 + y);
    assert Wrap32(x * 3 + y) == x * 3 + y;
  }

  /** The first index is never checked against its dimension. */
  lemma FirstIndexUnchecked()
    ensures Convolute([2, 3], [5, 1]) == Ok(16)
  {
  }

  /** The zero-filled backing memory of n elements. */
  function Zeros(n: nat): (r: seq<nat>)
    ensures |r| == n && forall i :: 0 <= i < n ==> r[i] == 0
  {
    seq(n, _ => 0)
  }

  /** Whether field k receives backing memory: a spacer inside at least one array. */
  predicate HasMemory(fs: seq<Field>, k: nat)
    requires k < |fs|
  {
    fs[k].Spacer() && |fs[k].dimensions| > 0
  }

  predicate RepsAreInts(fs: seq<Field>)
  {
    forall k :: 0 <= k < |fs| ==> fs[k].rep <= IntMax
  }

  /**
   * Give each spacer inside an array a zeroed backing memory of
   * dimProduct elements; every other field has none.  An int product that
   * wrapped below zero is a negative array size.
   */
  method AllocateMemory(fs: seq<Field>) returns (r: Result<seq<seq<nat>>, string>)
    requires DimsValid(fs) && RepsAreInts(fs)
    ensures r.Ok? <==> forall k :: 0 <= k < |fs| && HasMemory(fs, k) ==> WrappedProduct(DimReps(fs, k)) >= 0
    ensures r.Ok? ==> |r.value| == |fs| && forall k :: 0 <= k < |fs| ==>
      r.value[k] == if HasMemory(fs, k) then Zeros(WrappedProduct(DimReps(fs, k)) as nat) else []
  {
    var memory: seq<seq<nat>> := [];
    for k := 0 to |fs|
      invariant |memory| == k
      invariant forall j :: 0 <= j < k && HasMemory(fs, j) ==> WrappedProduct(DimReps(fs, j)) >= 0
      invariant forall j :: 0 <= j < k ==>
        memory[j] == if HasMemory(fs, j) then Zeros(WrappedProduct(DimReps(fs, j)) as nat) else []
    {
      if HasMemory(fs, k) {
        var n := DimProduct(DimReps(fs, k));
        if n < 0 {
          return Err("Negative array size");
        }
        memory := memory + [Zeros(n)];
      } else {
        memory := memory + [[]];
      }
    }
    return Ok(memory);
  }
}
