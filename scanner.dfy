/** The auto-fix scanner: two ordered rule tables (errors, then performance
    hints). A rule whose pattern matches the ORIGINAL code contributes its
    message and applies its rewrite to the running fixed code. The seven
    patterns are simple enough to be matched exactly here, with the
    leftmost, non-overlapping scan of a global replace. */
module Scanner {
  import opened Wrappers
  import opened Strings

  // ---------------------------------------------------------------------
  // Character classes

  /** `\s`: the white-space and line-terminator characters of ECMAScript. */
  predicate IsSpace(c: char) {
    c == '\t' || c == '\n' || c == '\U{B}' || c == '\U{C}' || c == '\r' || c == ' '
    || c == '\U{A0}' || c == '\U{1680}' || ('\U{2000}' <= c <= '\U{200A}')
    || c == '\U{2028}' || c == '\U{2029}' || c == '\U{202F}' || c == '\U{205F}'
    || c == '\U{3000}' || c == '\U{FEFF}'
  }

  /** Length of the leading run of white space (`\s*`, which is greedy and
      never needs to give characters back before a non-space token). */
  function SpaceRun(s: string): (n: nat)
    ensures n <= |s|
    ensures forall i :: 0 <= i < n ==> IsSpace(s[i])
    ensures n < |s| ==> !IsSpace(s[n])
  {
    if |s| == 0 || !IsSpace(s[0]) then 0 else 1 + SpaceRun(s[1..])
  }

  // ---------------------------------------------------------------------
  // Rule 1: `console\.log\(` ; rewrite `console\.log\([^)]*\);?\n?` -> ""

  const ConsoleLog: string := "console.log("

  /** Length of a `console.log(...)` statement at the start of `s`: the call
      up to its first `)`, an optional `;` and an optional line break. */
  function MatchConsoleCall(s: string): (r: Option<nat>)
    ensures r.Some? ==> 0 < r.value <= |s| && ConsoleLog <= s
  {
    if !(ConsoleLog <= s) then None
    else match IndexOf(s[|ConsoleLog|..], ')')
      case None => None
      case Some(p) =>
        var n := |ConsoleLog| + p + 1;
        var n1 := if n < |s| && s[n] == ';' then n + 1 else n;
        var n2 := if n1 < |s| && s[n1] == '\n' then n1 + 1 else n1;
        Some(n2)
  }

  /** `c.replace(/console\.log\([^)]*\);?\n?/g, "")`. */
  function StripConsoleCalls(s: string): (r: string)
    ensures |r| <= |s|
    decreases |s|
  {
    if |s| == 0 then []
    else match MatchConsoleCall(s)
      case Some(n) => StripConsoleCalls(s[n..])
      case None => [s[0]] + StripConsoleCalls(s[1..])
  }

  /** Text without `console.log(` is left alone by the rewrite. */
  lemma {:induction false} StripWithoutCalls(s: string)
    requires !Contains(s, ConsoleLog)
    ensures StripConsoleCalls(s) == s
    decreases |s|
  {
    if |s| > 0 {
      assert !(ConsoleLog <= s);
      StripWithoutCalls(s[1..]);
    }
  }

  // ---------------------------------------------------------------------
  // Rule 2: `=[^=]=` ; rewrite `([^=!])=[^=]` -> "$1==$2"

  /** Some `=`, one character other than `=`, then `=`. */
  predicate HasAssignPattern(s: string)
    decreases |s|
  {
    (|s| >= 3 && s[0] == '=' && s[1] != '=' && s[2] == '=')
    || (|s| > 0 && HasAssignPattern(s[1..]))
  }

  /** A single `=` preceded by a character other than `=` and `!` and
      followed by a character other than `=`. */
  predicate AssignmentAt(s: string) {
    |s| >= 3 && s[0] != '=' && s[0] != '!' && s[1] == '=' && s[2] != '='
  }

  /** The rewrite as written: the replacement names a second capture group
      that the pattern does not have, so `$2` is inserted literally and the
      character after the `=` is lost. */
  function FixAssignmentsAsWritten(s: string): (r: string)
    decreases |s|
  {
    if |s| == 0 then []
    else if AssignmentAt(s) then [s[0]] + "==$2" + FixAssignmentsAsWritten(s[3..])
    else [s[0]] + FixAssignmentsAsWritten(s[1..])
  }

  /** The rewrite with the character after `=` captured as group 2:
      `c.replace(/([^=!])=([^=])/g, "$1==$2")`. */
  function FixAssignments(s: string): (r: string)
    decreases |s|
  {
    if |s| == 0 then []
    else if AssignmentAt(s) then [s[0]] + "==" + [s[2]] + FixAssignments(s[3..])
    else [s[0]] + FixAssignments(s[1..])
  }

  /** `s` with every `=` removed. */
  function DropEq(s: string): (r: string)
  {
    if |s| == 0 then []
    else (if s[0] == '=' then [] else [s[0]]) + DropEq(s[1..])
  }

  lemma {:induction false} DropEqAppend(a: string, b: string)
    ensures DropEq(a + b) == DropEq(a) + DropEq(b)
    decreases |a|
  {
    if |a| > 0 {
      assert (a + b)[1..] == a[1..] + b;
      DropEqAppend(a[1..], b);
    } else {
      assert a + b == b;
    }
  }

  /** The corrected rewrite only inserts `=` signs: removing every `=` from
      its result gives the input with every `=` removed. */
  lemma {:induction false} FixAssignmentsKeepsText(s: string)
    ensures DropEq(FixAssignments(s)) == DropEq(s)
    decreases |s|
  {
    if |s| > 0 {
      if AssignmentAt(s) {
        var rest := FixAssignments(s[3..]);
        FixAssignmentsKeepsText(s[3..]);
        assert FixAssignments(s) == [s[0]] + ("=" + ("=" + ([s[2]] + rest)));
        DropEqCons(s[0], "=" + ("=" + ([s[2]] + rest)));
        DropEqCons('=', "=" + ([s[2]] + rest));
        DropEqCons('=', [s[2]] + rest);
        DropEqCons(s[2], rest);
        assert s == [s[0]] + ([s[1]] + ([s[2]] + s[3..]));
        DropEqCons(s[0], [s[1]] + ([s[2]] + s[3..]));
        DropEqCons(s[1], [s[2]] + s[3..]);
        DropEqCons(s[2], s[3..]);
      } else {
        FixAssignmentsKeepsText(s[1..]);
        DropEqCons(s[0], FixAssignments(s[1..]));
        assert s == [s[0]] + s[1..];
        DropEqCons(s[0], s[1..]);
      }
    }
  }

  lemma DropEqCons(c: char, t: string)
    ensures DropEq([c] + t) == (if c == '=' then [] else [c]) + DropEq(t)
  {
    assert ([c] + t)[1..] == t;
  }

  /** The corrected rewrite turns every rewritten `=` into `==` and so
      grows the text by one character per rewrite and never shrinks it. */
  lemma {:induction false} FixAssignmentsGrows(s: string)
    ensures |FixAssignments(s)| >= |s|
    decreases |s|
  {
    if |s| > 0 {
      if AssignmentAt(s) {
        FixAssignmentsGrows(s[3..]);
      } else {
        FixAssignmentsGrows(s[1..]);
      }
    }
  }

  /** As written, `a=b=c` becomes `a==$2=c`: the `b` is replaced by the
      text `$2`, which the corrected rewrite keeps as `a==b=c`. */
  lemma AssignmentFixLosesText()
    ensures FixAssignmentsAsWritten("a=b=c") == "a==$2=c"
    ensures FixAssignments("a=b=c") == "a==b=c"
    ensures DropEq(FixAssignmentsAsWritten("a=b=c")) != DropEq("a=b=c")
  {
    SampleTail();
    SampleAsWritten();
    SampleCorrected();
    SampleDropEq();
  }

  /** The sample `a=b=c` opens with an assignment and ends in `=c`. */
  lemma SampleTail()
    ensures AssignmentAt("a=b=c") && "a=b=c"[3..] == "=c"
    ensures !AssignmentAt("=c") && "=c"[1..] == "c"
  {
  }

  lemma SampleAsWritten()
    requires AssignmentAt("a=b=c") && "a=b=c"[3..] == "=c"
    requires !AssignmentAt("=c") && "=c"[1..] == "c"
    ensures FixAssignmentsAsWritten("a=b=c") == "a==$2=c"
  {
    assert FixAssignmentsAsWritten("c") == "c";
  }

  lemma SampleCorrected()
    requires AssignmentAt("a=b=c") && "a=b=c"[3..] == "=c"
    requires !AssignmentAt("=c") && "=c"[1..] == "c"
    ensures FixAssignments("a=b=c") == "a==b=c"
  {
    assert FixAssignments("c") == "c";
  }

  lemma SampleDropEq()
    ensures DropEq("a==$2=c") == "a$2c"
    ensures DropEq("a=b=c") == "abc"
  {
    DropEqWritten();
    DropEqInput();
  }

  lemma DropEqWritten()
    ensures DropEq("a==$2=c") == "a$2c"
  {
    DropEqWrittenTail();
    DropEqCons('=', "$2=c");
    DropEqCons('=', "=$2=c");
    DropEqCons('a', "==$2=c");
  }

  lemma DropEqWrittenTail()
    ensures DropEq("$2=c") == "$2c"
  {
    DropEqCons('2', "=c");
    DropEqCons('$', "2=c");
  }

  lemma DropEqInput()
    ensures DropEq("a=b=c") == "abc"
  {
    DropEqCons('b', "=c");
    DropEqCons('=', "b=c");
    DropEqCons('a', "=b=c");
  }

  // ---------------------------------------------------------------------
  // Rule 3: `//\s*TODO` (no rewrite)

  predicate TodoAt(s: string) {
    "//" <= s && "TODO" <= s[2 + SpaceRun(s[2..])..]
  }

  predicate HasTodo(s: string)
    decreases |s|
  {
    TodoAt(s) || (|s| > 0 && HasTodo(s[1..]))
  }

  // ---------------------------------------------------------------------
  // Rule 4: `catch\s*\([^)]*\)\s*{\s*}`

  /** Where an empty catch clause at the start of `s` has its `{` and how
      long the whole clause is. */
  datatype CatchMatch = CatchMatch(open: nat, len: nat)

  /** `\s*{\s*}` at the start of `t`: where the `{` is and where the
      block ends. */
  function EmptyBlock(t: string): (r: Option<CatchMatch>)
    ensures r.Some? ==> r.value.open < r.value.len <= |t| && t[r.value.open] == '{'
    ensures r.Some? ==> t[r.value.len - 1] == '}'
  {
    var b := SpaceRun(t);
    if b >= |t| || t[b] != '{' then None
    else
      var e := b + 1 + SpaceRun(t[b + 1..]);
      if e >= |t| || t[e] != '}' then None
      else Some(CatchMatch(b, e + 1))
  }

  /** Length of `catch\s*\([^)]*\)` at the start of `s`. */
  function CatchHead(s: string): (r: Option<nat>)
    ensures r.Some? ==> 5 < r.value <= |s| && "catch" <= s
  {
    if !("catch" <= s) then None
    else
      var i := 5 + SpaceRun(s[5..]);
      if i >= |s| || s[i] != '(' then None
      else match IndexOf(s[i + 1..], ')')
        case None => None
        case Some(p) => Some(i + 1 + p + 1)
  }

  function MatchEmptyCatch(s: string): (r: Option<CatchMatch>)
    ensures r.Some? ==> r.value.open < r.value.len <= |s| && s[r.value.open] == '{'
    ensures r.Some? ==> s[r.value.len - 1] == '}' && "catch" <= s
  {
    match CatchHead(s)
    case None => None
    case Some(j) =>
      match EmptyBlock(s[j..])
      case None => None
      case Some(m) => Some(CatchMatch(j + m.open, j + m.len))
  }

  predicate HasEmptyCatch(s: string)
    decreases |s|
  {
    MatchEmptyCatch(s).Some? || (|s| > 0 && HasEmptyCatch(s[1..]))
  }

  const Handled: string := "{ /* Error handled */ }"

  /** `m.replace("{}", ...)`: the first occurrence only. */
  function ReplaceFirstEmptyBraces(m: string): (r: string)
    decreases |m|
  {
    if |m| < 2 then m
    else if m[0] == '{' && m[1] == '}' then Handled + m[2..]
    else [m[0]] + ReplaceFirstEmptyBraces(m[1..])
  }

  /** The rewrite as written: each empty catch clause `m` becomes
      `m.replace("{}", ...)`, which does nothing when the braces are
      separated by white space. */
  function FillEmptyCatchesAsWritten(s: string): (r: string)
    decreases |s|
  {
    if |s| == 0 then []
    else match MatchEmptyCatch(s)
      case Some(m) => ReplaceFirstEmptyBraces(s[..m.len]) + FillEmptyCatchesAsWritten(s[m.len..])
      case None => [s[0]] + FillEmptyCatchesAsWritten(s[1..])
  }

  /** The corrected rewrite: each empty block, whatever white space it
      holds, becomes the handled block. */
  function FillEmptyCatches(s: string): (r: string)
    decreases |s|
  {
    if |s| == 0 then []
    else match MatchEmptyCatch(s)
      case Some(m) => s[..m.open] + Handled + FillEmptyCatches(s[m.len..])
      case None => [s[0]] + FillEmptyCatches(s[1..])
  }

  /** A clause alone: the corrected rewrite keeps its head and replaces its
      block by the handled block. */
  lemma FillOneCatch(s: string)
    requires MatchEmptyCatch(s).Some? && MatchEmptyCatch(s).value.len == |s|
    ensures FillEmptyCatches(s) == s[..MatchEmptyCatch(s).value.open] + Handled
  {
    assert s[|s|..] == [];
  }

  const SpacedCatch: string := "catch (e) { }"

  /** The clause `catch (e) { }` is one whole empty catch clause, its block
      starting at index 10. */
  lemma SpacedCatchMatches()
    ensures MatchEmptyCatch(SpacedCatch) == Some(CatchMatch(10, 13))
  {
    var s := SpacedCatch;
    SpacedCatchHead();
    assert s[9..] == " { }";
    SpacedBlock();
  }

  lemma SpacedCatchHead()
    ensures CatchHead(SpacedCatch) == Some(9)
  {
    SpacedCatchPieces();
    SpacedCatchSpace();
    SpacedCatchParen();
  }

  lemma SpacedCatchPieces()
    ensures "catch" <= SpacedCatch && SpacedCatch[6] == '('
    ensures SpacedCatch[5..] == " (e) { }" && SpacedCatch[7..] == "e) { }"
  {
  }

  lemma SpacedCatchSpace()
    ensures SpaceRun(" (e) { }") == 1
  {
    assert " (e) { }"[1..] == "(e) { }";
  }

  lemma SpacedCatchParen()
    ensures IndexOf("e) { }", ')') == Some(1)
  {
    assert "e) { }"[1..] == ") { }";
  }

  lemma SpacedBlock()
    ensures EmptyBlock(" { }") == Some(CatchMatch(1, 4))
  {
    var t := " { }";
    assert SpaceRun(t) == 1 by {
      assert t[1..] == "{ }";
    }
    assert t[2..] == " }";
    assert SpaceRun(t[2..]) == 1 by {
      assert " }"[1..] == "}";
    }
  }

  /** The clause holds no `{}` pair, so the first-occurrence replacement
      leaves it alone. */
  lemma SpacedCatchHasNoEmptyBraces()
    ensures ReplaceFirstEmptyBraces(SpacedCatch) == SpacedCatch
  {
    var s := SpacedCatch;
    SpacedCatchSplit();
    SpacedBlockUnchanged();
    NoBracesPrefix(s, 10);
    assert s[..10] + s[10..] == s;
  }

  lemma SpacedCatchSplit()
    ensures SpacedCatch[10..] == "{ }"
    ensures forall i :: 0 <= i < 10 ==> SpacedCatch[i] != '{'
  {
  }

  lemma SpacedBlockUnchanged()
    ensures ReplaceFirstEmptyBraces("{ }") == "{ }"
  {
    assert "{ }"[1..] == " }";
    assert ReplaceFirstEmptyBraces(" }") == " }" by {
      assert " }"[1..] == "}";
    }
  }

  /** `catch (e) { }` is reported as an empty catch block, yet the rewrite
      as written returns it unchanged; the corrected one fills it. */
  lemma EmptyCatchWithSpaceUnchanged()
    ensures HasEmptyCatch(SpacedCatch)
    ensures FillEmptyCatchesAsWritten(SpacedCatch) == SpacedCatch
    ensures FillEmptyCatches(SpacedCatch) == "catch (e) " + Handled
  {
    SpacedCatchMatches();
    SpacedCatchAsWritten();
    SpacedCatchCorrected();
  }

  lemma SpacedCatchAsWritten()
    requires MatchEmptyCatch(SpacedCatch) == Some(CatchMatch(10, 13))
    ensures FillEmptyCatchesAsWritten(SpacedCatch) == SpacedCatch
  {
    SpacedCatchHasNoEmptyBraces();
    WholeCatchAsWritten(SpacedCatch);
  }

  /** A text that is one empty catch clause is rewritten, as written, by
      the first-occurrence replacement alone. */
  lemma WholeCatchAsWritten(s: string)
    requires MatchEmptyCatch(s).Some? && MatchEmptyCatch(s).value.len == |s|
    ensures FillEmptyCatchesAsWritten(s) == ReplaceFirstEmptyBraces(s)
  {
    assert s[..|s|] == s;
    assert s[|s|..] == [];
  }

  lemma SpacedCatchCorrected()
    requires MatchEmptyCatch(SpacedCatch) == Some(CatchMatch(10, 13))
    ensures FillEmptyCatches(SpacedCatch) == "catch (e) " + Handled
  {
    FillOneCatch(SpacedCatch);
    SpacedCatchFront();
  }

  lemma SpacedCatchFront()
    ensures |SpacedCatch| == 13 && SpacedCatch[..10] == "catch (e) "
  {
  }

  /** Characters before the first `{` pass through the first-occurrence
      replacement unchanged. */
  lemma {:induction false} NoBracesPrefix(m: string, k: nat)
    requires k <= |m|
    requires forall i :: 0 <= i < k ==> m[i] != '{'
    ensures ReplaceFirstEmptyBraces(m) == m[..k] + ReplaceFirstEmptyBraces(m[k..])
    decreases k
  {
    if k > 0 {
      assert m[1..][k - 1..] == m[k..];
      NoBracesPrefix(m[1..], k - 1);
      assert m[..k] == [m[0]] + m[1..][..k - 1];
    }
  }

  // ---------------------------------------------------------------------
  // Rule 5: `for\s*\([^;]*;\s*[^;]*;\s*[^)]*\)` (no rewrite)

  /** A `for` head: `for`, white space, `(`, two `;` and then a `)`. */
  predicate ForHeadAt(s: string) {
    "for" <= s &&
    var i := 3 + SpaceRun(s[3..]);
    i < |s| && s[i] == '(' &&
    match IndexOf(s[i + 1..], ';')
    case None => false
    case Some(p) =>
      var t := s[i + 1 + p + 1..];
      match IndexOf(t, ';')
      case None => false
      case Some(q) => ')' in t[q + 1..]
  }

  predicate HasForHead(s: string)
    decreases |s|
  {
    ForHeadAt(s) || (|s| > 0 && HasForHead(s[1..]))
  }

  // ---------------------------------------------------------------------
  // Rule 6: `\.map\([^)]*\)\.filter` ;
  //         rewrite `\.map\(([^)]*)\)\.filter\(([^)]*)\)` -> ".filter($2).map($1)"

  predicate MapThenFilterAt(s: string) {
    ".map(" <= s &&
    match IndexOf(s[5..], ')')
    case None => false
    case Some(p) => ".filter" <= s[5 + p + 1..]
  }

  predicate HasMapThenFilter(s: string)
    decreases |s|
  {
    MapThenFilterAt(s) || (|s| > 0 && HasMapThenFilter(s[1..]))
  }

  /** A full `.map(a).filter(b)` chain at the start of `s`: the two
      arguments and the chain's length. */
  datatype Chain = Chain(mapArg: string, filterArg: string, len: nat)

  function MatchChain(s: string): (r: Option<Chain>)
    ensures r.Some? ==> r.value.len == |r.value.mapArg| + |r.value.filterArg| + 15 <= |s|
  {
    if !(".map(" <= s) then None
    else match IndexOf(s[5..], ')')
      case None => None
      case Some(p) =>
        match MatchFilter(s, 5 + p + 1)
        case None => None
        case Some(q) => Some(Chain(s[5..5 + p], s[5 + p + 1 + 8..5 + p + 1 + 8 + q], p + q + 15))
  }

  /** The `.filter(...)` half of a chain, from position `i` of `s`: the
      length of its argument. */
  function MatchFilter(s: string, i: nat): (r: Option<nat>)
    requires i <= |s|
    ensures r.Some? ==> i + 8 + r.value + 1 <= |s|
  {
    if !(".filter(" <= s[i..]) then None
    else match IndexOf(s[i + 8..], ')')
      case None => None
      case Some(q) => Some(q)
  }

  /** `c.replace(/\.map\(([^)]*)\)\.filter\(([^)]*)\)/g, ".filter($2).map($1)")`. */
  function SwapMapFilter(s: string): (r: string)
    decreases |s|
  {
    if |s| == 0 then []
    else match MatchChain(s)
      case Some(c) => ".filter(" + c.filterArg + ").map(" + c.mapArg + ")" + SwapMapFilter(s[c.len..])
      case None => [s[0]] + SwapMapFilter(s[1..])
  }

  /** The swap only reorders: the text keeps its length. */
  lemma {:induction false} SwapMapFilterLength(s: string)
    ensures |SwapMapFilter(s)| == |s|
    decreases |s|
  {
    if |s| > 0 {
      match MatchChain(s)
      case Some(c) =>
        SwapMapFilterLength(s[c.len..]);
      case None =>
        SwapMapFilterLength(s[1..]);
    }
  }

  /** A chain alone becomes the filter call followed by the map call. */
  lemma SwapOneChain(a: string, b: string)
    requires ')' !in a && ')' !in b
    ensures SwapMapFilter(".map(" + a + ").filter(" + b + ")") == ".filter(" + b + ").map(" + a + ")"
  {
    var s := ".map(" + a + ").filter(" + b + ")";
    ChainMatches(a, b);
    assert s[|s|..] == [];
  }

  lemma ChainMatches(a: string, b: string)
    requires ')' !in a && ')' !in b
    ensures MatchChain(".map(" + a + ").filter(" + b + ")") == Some(Chain(a, b, |a| + |b| + 15))
  {
    var s := ".map(" + a + ").filter(" + b + ")";
    MapPart(a, b);
    FilterPart(a, b);
    ChainPieces(".map(", a, ").filter(", b, ")");
    ChainAt(s, a, b);
  }

  /** The arguments of a chain, cut back out of its text. */
  lemma ChainPieces(u: string, a: string, v: string, b: string, w: string)
    requires |u| == 5 && |v| == 9
    ensures (u + a + v + b + w)[5..5 + |a|] == a
    ensures (u + a + v + b + w)[5 + |a| + 1 + 8..5 + |a| + 1 + 8 + |b|] == b
  {
    var s := u + a + v + b + w;
    assert forall k :: 0 <= k < |a| ==> s[|u| + k] == a[k];
    assert forall k :: 0 <= k < |b| ==> s[|u| + |a| + |v| + k] == b[k];
  }

  /** `MatchChain` once both closing parentheses and both arguments are
      located. */
  lemma ChainAt(s: string, a: string, b: string)
    requires ".map(" <= s && IndexOf(s[5..], ')') == Some(|a|)
    requires ".filter(" <= s[5 + |a| + 1..] && IndexOf(s[5 + |a| + 1 + 8..], ')') == Some(|b|)
    requires s[5..5 + |a|] == a && s[5 + |a| + 1 + 8..5 + |a| + 1 + 8 + |b|] == b
    ensures MatchChain(s) == Some(Chain(a, b, |a| + |b| + 15))
  {
    FilterAt(s, 5 + |a| + 1, |b|);
  }

  lemma FilterAt(s: string, i: nat, q: nat)
    requires i <= |s|
    requires ".filter(" <= s[i..] && IndexOf(s[i + 8..], ')') == Some(q)
    ensures MatchFilter(s, i) == Some(q)
  {
  }

  lemma MapPart(a: string, b: string)
    requires ')' !in a
    ensures ".map(" <= ".map(" + a + ").filter(" + b + ")"
    ensures IndexOf((".map(" + a + ").filter(" + b + ")")[5..], ')') == Some(|a|)
  {
    var s := ".map(" + a + ").filter(" + b + ")";
    var t := ").filter(" + b + ")";
    assert s == ".map(" + (a + t);
    assert s[5..] == a + t;
    IndexOfAfter(a, t);
  }

  lemma FilterPart(a: string, b: string)
    requires ')' !in b
    ensures var s := ".map(" + a + ").filter(" + b + ")";
      var i := 5 + |a| + 1;
      && ".filter(" <= s[i..]
      && IndexOf(s[i + 8..], ')') == Some(|b|)
  {
    var s := ".map(" + a + ").filter(" + b + ")";
    var i := 5 + |a| + 1;
    assert s == (".map(" + a + ")") + (".filter(" + (b + ")"));
    assert s[i..] == ".filter(" + (b + ")");
    assert s[i + 8..] == b + ")";
    IndexOfAfter(b, ")");
  }

  /** The first `)` of `a + t`, when `a` has none and `t` starts with one. */
  lemma IndexOfAfter(a: string, t: string)
    requires ')' !in a && |t| > 0 && t[0] == ')'
    ensures IndexOf(a + t, ')') == Some(|a|)
  {
    assert (a + t)[|a|] == ')';
    assert (a + t)[..|a|] == a;
  }

  // ---------------------------------------------------------------------
  // Rule 7: `new\s+Date\(\)` (no rewrite)

  predicate NewDateAt(s: string) {
    "new" <= s && |s| > 3 && IsSpace(s[3]) && "Date()" <= s[3 + SpaceRun(s[3..])..]
  }

  predicate HasNewDate(s: string)
    decreases |s|
  {
    NewDateAt(s) || (|s| > 0 && HasNewDate(s[1..]))
  }

  // ---------------------------------------------------------------------
  // The rule tables

  datatype Rule =
    | ConsoleStatements | AssignmentInConditional | TodoComment | EmptyCatch
    | ForLoop | MapBeforeFilter | DateInLoop

  /** The message a rule reports. */
  function Message(rule: Rule): string
  {
    match rule
    case ConsoleStatements => "Debug console statements in production code"
    case AssignmentInConditional => "Possible assignment in conditional"
    case TodoComment => "Incomplete implementation (TODO comment)"
    case EmptyCatch => "Empty catch block"
    case ForLoop => "Consider using array methods instead of for loops"
    case MapBeforeFilter => "Filter before map for better performance"
    case DateInLoop => "Cache date objects in loops"
  }

  /** Whether a rule's pattern occurs in the code. */
  predicate Detects(rule: Rule, code: string)
  {
    match rule
    case ConsoleStatements => Contains(code, ConsoleLog)
    case AssignmentInConditional => HasAssignPattern(code)
    case TodoComment => HasTodo(code)
    case EmptyCatch => HasEmptyCatch(code)
    case ForLoop => HasForHead(code)
    case MapBeforeFilter => HasMapThenFilter(code)
    case DateInLoop => HasNewDate(code)
  }

  /** Which rewrites rules 2 and 4 use: the ones the scanner has, or the
      corrected ones that keep the character after `=` and fill spaced
      empty blocks. */
  datatype Fixes = AsWritten | Intended

  /** A rule's rewrite. */
  function Rewrite(rule: Rule, code: string, fixes: Fixes): string
  {
    match rule
    case ConsoleStatements => StripConsoleCalls(code)
    case AssignmentInConditional =>
      if fixes == AsWritten then FixAssignmentsAsWritten(code) else FixAssignments(code)
    case EmptyCatch =>
      if fixes == AsWritten then FillEmptyCatchesAsWritten(code) else FillEmptyCatches(code)
    case MapBeforeFilter => SwapMapFilter(code)
    case _ => code
  }

  /** Rules whose rewrite was corrected. */
  predicate Corrected(rule: Rule) {
    rule == AssignmentInConditional || rule == EmptyCatch
  }

  /** Every other rule rewrites the same way in both versions. */
  lemma RewritesAgree(rule: Rule, code: string)
    requires !Corrected(rule)
    ensures Rewrite(rule, code, AsWritten) == Rewrite(rule, code, Intended)
  {
  }

  /** Rules whose rewrite is the identity. */
  predicate ReportOnly(rule: Rule) {
    rule == TodoComment || rule == ForLoop || rule == DateInLoop
  }

  lemma ReportOnlyRulesKeepCode(rule: Rule, code: string, fixes: Fixes)
    requires ReportOnly(rule)
    ensures Rewrite(rule, code, fixes) == code
  {
  }

  function ErrorRules(): seq<Rule> {
    [ConsoleStatements, AssignmentInConditional, TodoComment, EmptyCatch]
  }

  function PerformanceRules(): seq<Rule> {
    [ForLoop, MapBeforeFilter, DateInLoop]
  }

  /** The messages of the rules that match `code`, in table order. */
  function Messages(rules: seq<Rule>, code: string): (r: seq<string>)
    ensures |r| <= |rules|
  {
    if |rules| == 0 then []
    else (Messages(rules[..|rules| - 1], code)
          + (if Detects(rules[|rules| - 1], code) then [Message(rules[|rules| - 1])] else []))
  }

  /** The running fixed code after the rules of `rules`: each rule that
      matches `original` rewrites `current`. */
  function Applied(rules: seq<Rule>, original: string, current: string, fixes: Fixes): string
  {
    if |rules| == 0 then current
    else
      ApplyRule(rules[|rules| - 1], original, Applied(rules[..|rules| - 1], original, current, fixes), fixes)
  }

  /** One rule of a table: it rewrites `current` when it matches `original`. */
  function ApplyRule(rule: Rule, original: string, current: string, fixes: Fixes): string
  {
    if Detects(rule, original) then Rewrite(rule, current, fixes) else current
  }

  /** The fixed code of a scan: the error table's rewrites, then the
      performance table's. */
  function FixedCode(code: string, fixes: Fixes): string
  {
    Applied(PerformanceRules(), code, Applied(ErrorRules(), code, code, fixes), fixes)
  }

  /** When no corrected rule matches the original code, a table gives the
      same fixed code with either version of the rewrites. */
  lemma {:induction false} AppliedAgree(rules: seq<Rule>, original: string, current: string)
    requires forall k :: 0 <= k < |rules| && Corrected(rules[k]) ==> !Detects(rules[k], original)
    ensures Applied(rules, original, current, AsWritten) == Applied(rules, original, current, Intended)
    decreases |rules|
  {
    if |rules| > 0 {
      var init := rules[..|rules| - 1];
      assert forall k :: 0 <= k < |init| ==> init[k] == rules[k];
      AppliedAgree(init, original, current);
      var before := Applied(init, original, current, AsWritten);
      if Detects(rules[|rules| - 1], original) {
        RewritesAgree(rules[|rules| - 1], before);
      }
    }
  }

  /** The scanner as written and the corrected one differ only on code in
      which the assignment rule or the empty-catch rule fires. */
  lemma FixedCodeAgrees(code: string)
    requires !Detects(AssignmentInConditional, code) && !Detects(EmptyCatch, code)
    ensures FixedCode(code, AsWritten) == FixedCode(code, Intended)
  {
    var e := ErrorRules();
    assert e[1] == AssignmentInConditional && e[3] == EmptyCatch;
    AppliedAgree(e, code, code);
    AppliedAgree(PerformanceRules(), code, Applied(e, code, code, AsWritten));
  }

  /** A message is listed exactly when some rule with that message matches
      the original code. */
  lemma {:induction false} MessagesExactly(rules: seq<Rule>, code: string, msg: string)
    ensures msg in Messages(rules, code) <==>
      exists k :: 0 <= k < |rules| && Detects(rules[k], code) && Message(rules[k]) == msg
    decreases |rules|
  {
    if |rules| > 0 {
      var init := rules[..|rules| - 1];
      var last := |rules| - 1;
      var tail := if Detects(rules[last], code) then [Message(rules[last])] else [];
      MessagesExactly(init, code, msg);
      assert Messages(rules, code) == Messages(init, code) + tail;
      if exists k :: 0 <= k < |rules| && Detects(rules[k], code) && Message(rules[k]) == msg {
        var k :| 0 <= k < |rules| && Detects(rules[k], code) && Message(rules[k]) == msg;
        if k < last {
          assert init[k] == rules[k];
          assert msg in Messages(init, code);
        } else {
          assert msg in tail;
        }
      }
      if msg in Messages(init, code) {
        var k :| 0 <= k < |init| && Detects(init[k], code) && Message(init[k]) == msg;
        assert rules[k] == init[k];
      } else if msg in Messages(rules, code) {
        assert msg in tail;
        assert Detects(rules[last], code) && Message(rules[last]) == msg;
      }
    }
  }

  ghost predicate DistinctMessages(rules: seq<Rule>) {
    forall i, j :: 0 <= i < j < |rules| ==> Message(rules[i]) != Message(rules[j])
  }

  /** With distinct rule messages, no message is listed twice. */
  lemma {:induction false} MessagesDistinct(rules: seq<Rule>, code: string)
    requires DistinctMessages(rules)
    ensures forall i, j :: 0 <= i < j < |Messages(rules, code)| ==>
      Messages(rules, code)[i] != Messages(rules, code)[j]
    decreases |rules|
  {
    if |rules| > 0 {
      var init := rules[..|rules| - 1];
      var last := rules[|rules| - 1];
      MessagesDistinct(init, code);
      if Detects(last, code) {
        MessagesExactly(init, code, Message(last));
        assert forall k :: 0 <= k < |init| ==> init[k] == rules[k];
        assert Message(last) !in Messages(init, code);
      }
    }
  }

  /** Both tables carry distinct messages. */
  lemma TablesDistinct()
    ensures DistinctMessages(ErrorRules()) && DistinctMessages(PerformanceRules())
  {
    ErrorTableDistinct();
    PerformanceTableDistinct();
  }

  lemma ErrorTableDistinct()
    ensures DistinctMessages(ErrorRules())
  {
    ErrorMessageLengths();
    DistinctByLength(ErrorRules());
  }

  /** Messages of different lengths are different messages. */
  lemma DistinctByLength(rules: seq<Rule>)
    requires forall i, j :: 0 <= i < j < |rules| ==> |Message(rules[i])| != |Message(rules[j])|
    ensures DistinctMessages(rules)
  {
  }

  lemma ErrorMessageLengths()
    ensures var e := ErrorRules();
      |e| == 4 && |Message(e[0])| == 43 && |Message(e[1])| == 34 && |Message(e[2])| == 40 && |Message(e[3])| == 17
  {
    assert |Message(ConsoleStatements)| == 43 && |Message(AssignmentInConditional)| == 34;
    assert |Message(TodoComment)| == 40 && |Message(EmptyCatch)| == 17;
  }

  lemma PerformanceTableDistinct()
    ensures DistinctMessages(PerformanceRules())
  {
    PerformanceMessageLengths();
    DistinctByLength(PerformanceRules());
  }

  lemma PerformanceMessageLengths()
    ensures var p := PerformanceRules();
      |p| == 3 && |Message(p[0])| == 49 && |Message(p[1])| == 40 && |Message(p[2])| == 27
  {
    assert |Message(ForLoop)| == 49 && |Message(MapBeforeFilter)| == 40 && |Message(DateInLoop)| == 27;
  }

  /** Code that matches no rule of a table is not changed by it. */
  lemma {:induction false} NothingDetectedNothingChanged(rules: seq<Rule>, code: string, current: string)
    requires forall k :: 0 <= k < |rules| ==> !Detects(rules[k], code)
    ensures Messages(rules, code) == []
    ensures Applied(rules, code, current, AsWritten) == current
    ensures Applied(rules, code, current, Intended) == current
    decreases |rules|
  {
    if |rules| > 0 {
      NothingDetectedNothingChanged(rules[..|rules| - 1], code, current);
    }
  }

  /** Report-only rules may be dropped from a table without changing the
      fixed code. */
  function WithoutReportOnly(rules: seq<Rule>): seq<Rule>
  {
    if |rules| == 0 then []
    else (WithoutReportOnly(rules[..|rules| - 1])
          + (if ReportOnly(rules[|rules| - 1]) then [] else [rules[|rules| - 1]]))
  }

  lemma {:induction false} ReportOnlyRulesIrrelevant(rules: seq<Rule>, original: string, current: string, fixes: Fixes)
    ensures Applied(WithoutReportOnly(rules), original, current, fixes) == Applied(rules, original, current, fixes)
    decreases |rules|
  {
    if |rules| > 0 {
      var init := rules[..|rules| - 1];
      var last := rules[|rules| - 1];
      ReportOnlyRulesIrrelevant(init, original, current, fixes);
      if !ReportOnly(last) {
        var w := WithoutReportOnly(init) + [last];
        assert WithoutReportOnly(rules) == w;
        assert w[..|w| - 1] == WithoutReportOnly(init) && w[|w| - 1] == last;
      } else {
        assert WithoutReportOnly(rules) == WithoutReportOnly(init);
        ReportOnlyRulesKeepCode(last, Applied(init, original, current, fixes), fixes);
      }
    }
  }

  /** The result of the scan. */
  datatype ScanResult = ScanResult(fixedCode: string, detectedIssues: seq<string>, performanceImprovements: seq<string>)

  /** Runs one table over the code, as a loop over its rules. */
  method RunRules(rules: seq<Rule>, code: string, current: string, fixes: Fixes)
    returns (fixed: string, messages: seq<string>)
    ensures messages == Messages(rules, code)
    ensures fixed == Applied(rules, code, current, fixes)
  {
    fixed := current;
    messages := [];
    var i := 0;
    while i < |rules|
      invariant 0 <= i <= |rules|
      invariant messages == Messages(rules[..i], code)
      invariant fixed == Applied(rules[..i], code, current, fixes)
    {
      assert rules[..i + 1][..i] == rules[..i];
      if Detects(rules[i], code) {
        messages := messages + [Message(rules[i])];
        fixed := Rewrite(rules[i], fixed, fixes);
      }
      i := i + 1;
    }
    assert rules[..|rules|] == rules;
  }

  /** `autoDetectAndFixErrors` (without its simulated delay): the error
      table, then the performance table; at most four issues and three
      improvements, none listed twice, each present exactly when its rule
      matches the original code. `AsWritten` gives the scanner's own fixed
      code, `Intended` the one with the corrected rewrites. */
  method AutoDetectAndFix(code: string, fixes: Fixes) returns (r: ScanResult)
    ensures r.detectedIssues == Messages(ErrorRules(), code)
    ensures r.performanceImprovements == Messages(PerformanceRules(), code)
    ensures r.fixedCode == FixedCode(code, fixes)
    ensures |r.detectedIssues| <= 4 && |r.performanceImprovements| <= 3
    ensures forall i, j :: 0 <= i < j < |r.detectedIssues| ==> r.detectedIssues[i] != r.detectedIssues[j]
    ensures forall i, j :: 0 <= i < j < |r.performanceImprovements| ==>
      r.performanceImprovements[i] != r.performanceImprovements[j]
  {
    var fixed, issues := RunRules(ErrorRules(), code, code, fixes);
    var improved, improvements := RunRules(PerformanceRules(), code, fixed, fixes);
    TablesDistinct();
    MessagesDistinct(ErrorRules(), code);
    MessagesDistinct(PerformanceRules(), code);
    r := ScanResult(improved, issues, improvements);
  }
}
