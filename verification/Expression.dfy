/**
 The path language of templates/expression.py: `$`, `.name`, `[index]` and `['key']`. The
 compiler is a loop over the text; printing a path and compiling it gives the path back.
 */
module Expression {
  import opened Wrappers
  import opened Text
  import opened Json

  const MAX_STEPS := 32

  predicate NameStart(c: char) {
    'A' <= c <= 'Z' || 'a' <= c <= 'z' || c == '_'
  }

  predicate Digit(c: char) {
    '0' <= c <= '9'
  }

  predicate NameChar(c: char) {
    NameStart(c) || Digit(c) || c == '-'
  }

  function CharsLen(s: string): (n: nat)
    ensures n <= |s|
  {
    if s != "" && NameChar(s[0]) then 1 + CharsLen(s[1..]) else 0
  }

  /** The length of the name at the front of a text; zero when there is none. */
  function NameLen(s: string): (n: nat)
    ensures n <= |s|
  {
    if s == "" || !NameStart(s[0]) then 0 else 1 + CharsLen(s[1..])
  }

  // ---------------------------------------------------------------- integers

  predicate AllDigits(s: string) {
    forall c | c in s :: Digit(c)
  }

  predicate IsInt(s: string) {
    if s != "" && s[0] == '-' then |s| > 1 && AllDigits(s[1..]) else s != "" && AllDigits(s)
  }

  function NatOf(s: string): nat
    requires AllDigits(s)
  {
    if s == "" then 0
    else
      var c := s[|s| - 1];
      assert c in s;
      NatOf(s[..|s| - 1]) * 10 + (c as int - '0' as int)
  }

  function IntOf(s: string): int
    requires IsInt(s)
  {
    if s[0] == '-' then 0 - (NatOf(s[1..]) as int) else NatOf(s)
  }

  function DigitChar(d: int): (c: char)
    requires 0 <= d < 10
    ensures Digit(c) && c as int - '0' as int == d
  {
    ('0' as int + d) as char
  }

  function NatText(n: nat): (s: string)
    ensures s != "" && AllDigits(s)
  {
    if n < 10 then [DigitChar(n)] else NatText(n / 10) + [DigitChar(n % 10)]
  }

  function IntText(i: int): string {
    if i < 0 then ['-'] + NatText(-i) else NatText(i)
  }

  lemma LastDigit(s: string, d: int)
    requires AllDigits(s) && 0 <= d < 10
    ensures AllDigits(s + [DigitChar(d)]) && NatOf(s + [DigitChar(d)]) == NatOf(s) * 10 + d
  {
    assert (s + [DigitChar(d)])[..|s|] == s;
  }

  lemma {:induction false} NatTextReads(n: nat)
    ensures NatOf(NatText(n)) == n
  {
    if n < 10 {
      LastDigit("", n);
      assert "" + [DigitChar(n)] == [DigitChar(n)];
    } else {
      NatTextReads(n / 10);
      LastDigit(NatText(n / 10), n % 10);
    }
  }

  lemma IntTextReads(i: int)
    ensures IsInt(IntText(i)) && IntOf(IntText(i)) == i
  {
    if i < 0 {
      assert IntText(i)[1..] == NatText(-i);
      NatTextReads(-i);
    } else {
      assert IntText(i)[0] in NatText(i);
      NatTextReads(i);
    }
  }

  lemma IntTextIsPlain(i: int)
    ensures IntText(i) != "" && Trimmed(IntText(i)) && ']' !in IntText(i) && !Quote(IntText(i)[0])
  {
    var t := IntText(i);
    forall c | c in t ensures Digit(c) || c == '-' {
    }
    assert t[0] in t && t[|t| - 1] in t;
  }

  // ---------------------------------------------------------------- the language

  predicate Quote(c: char) {
    c == '\'' || c == '"'
  }

  /** What stands between brackets, stripped: a quoted key or an index. */
  function Bracket(t: string): Option<Step> {
    if |t| >= 2 && t[0] == t[|t| - 1] && Quote(t[0]) then Some(Key(t[1..|t| - 1]))
    else if IsInt(t) then Some(Index(IntOf(t)))
    else None
  }

  /** The first step of a text, and how many characters it takes. */
  function FirstStep(s: string): Option<(Step, nat)>
    requires s != ""
  {
    if s[0] == '.' then
      var n := NameLen(s[1..]);
      if n == 0 then None else Some((Key(s[1..1 + n]), 1 + n))
    else if s[0] == '[' then
      var end := FirstOf(s, ']');
      if end == |s| then None
      else
        var step := Bracket(Strip(s[1..end]));
        if step.None? then None else Some((step.value, end + 1))
    else None
  }

  lemma FirstStepAdvances(s: string)
    requires s != "" && FirstStep(s).Some?
    ensures 1 <= FirstStep(s).value.1 <= |s|
  {
  }

  /** The steps that a text after `$` spells. */
  function Parse(s: string): Option<Path>
    decreases |s|
  {
    if s == "" then Some([])
    else
      var first := FirstStep(s);
      if first.None? then None
      else
        FirstStepAdvances(s);
        var rest := Parse(s[first.value.1..]);
        if rest.None? then None else Some([first.value.0] + rest.value)
  }

  predicate Contains(s: string, t: string)
    decreases |s|
  {
    t <= s || (s != "" && Contains(s[1..], t))
  }

  /** `FORBIDDEN_TOKENS` */
  predicate Forbidden(s: string) {
    Contains(s, "..") || Contains(s, "*") || Contains(s, "[?") || Contains(s, "[(") || Contains(s, "@") || Contains(s, "|")
  }

  /** What `compile_expression` accepts, and what it makes of it. */
  function Compiled(spec: string): Option<Path> {
    if spec == "" || Forbidden(spec) || spec[0] != '$' then None
    else
      var p := Parse(spec[1..]);
      if p.Some? && |p.value| <= MAX_STEPS then p else None
  }

  /** `t in s` */
  lemma {:induction false} ContainsIff(s: string, t: string)
    ensures Contains(s, t) <==> exists i :: 0 <= i <= |s| && t <= s[i..]
    decreases |s|
  {
    if s != "" {
      ContainsIff(s[1..], t);
      assert forall i | 0 <= i <= |s[1..]| :: s[1..][i..] == s[i + 1..];
      if i :| 0 <= i <= |s| && t <= s[i..] {
        if i > 0 {
          assert s[i..] == s[1..][i - 1..];
        } else {
          assert s[0..] == s;
        }
      }
      if t <= s {
        assert s[0..] == s;
      } else if j :| 0 <= j <= |s[1..]| && t <= s[1..][j..] {
        assert s[1..][j..] == s[j + 1..];
      }
    } else if t == "" {
      assert s[0..] == s;
    }
  }

  const TOKENS := ["..", "*", "[?", "[(", "@", "|"]

  /** Exactly the texts that hold one of the six tokens somewhere are forbidden. */
  lemma ForbiddenIff(s: string)
    ensures Forbidden(s) <==> exists k, i :: 0 <= k < |TOKENS| && 0 <= i <= |s| && TOKENS[k] <= s[i..]
  {
    forall k | 0 <= k < |TOKENS|
      ensures Contains(s, TOKENS[k]) <==> exists i :: 0 <= i <= |s| && TOKENS[k] <= s[i..]
    {
      ContainsIff(s, TOKENS[k]);
    }
    assert Contains(s, TOKENS[0]) == Contains(s, "..") && Contains(s, TOKENS[1]) == Contains(s, "*")
        && Contains(s, TOKENS[2]) == Contains(s, "[?") && Contains(s, TOKENS[3]) == Contains(s, "[(")
        && Contains(s, TOKENS[4]) == Contains(s, "@") && Contains(s, TOKENS[5]) == Contains(s, "|");
  }

  /** An accepted path begins with `$`, has at most 32 steps, and holds none of the tokens anywhere. */
  lemma AcceptedPaths(spec: string, k: nat, i: nat)
    requires Compiled(spec).Some? && k < |TOKENS| && i <= |spec|
    ensures spec != "" && spec[0] == '$' && |Compiled(spec).value| <= 32
    ensures !(TOKENS[k] <= spec[i..])
  {
    ForbiddenIff(spec);
  }

  function Prepend(steps: Path, rest: Option<Path>): Option<Path> {
    if rest.None? then None else Some(steps + rest.value)
  }

  lemma PrependSteps(steps: Path, first: Step, rest: Option<Path>)
    ensures Prepend([], rest) == rest
    ensures Prepend(steps + [first], rest) == Prepend(steps, Prepend([first], rest))
  {
    if rest.Some? {
      assert [] + rest.value == rest.value;
      assert steps + [first] + rest.value == steps + ([first] + rest.value);
    }
  }

  /** `compile_expression` */
  method Compile(spec: string) returns (r: Option<Path>)
    ensures r == Compiled(spec)
  {
    if spec == "" || Forbidden(spec) || spec[0] != '$' {
      return None;
    }
    var steps: Path, i := [], 1;
    PrependSteps([], Index(0), Parse(spec[1..]));
    while i < |spec|
      invariant 1 <= i <= |spec|
      invariant Parse(spec[1..]) == Prepend(steps, Parse(spec[i..]))
    {
      var rest := spec[i..];
      var first := FirstStep(rest);
      if first.None? {
        return None;
      }
      FirstStepAdvances(rest);
      assert rest[first.value.1..] == spec[i + first.value.1..];
      PrependSteps(steps, first.value.0, Parse(rest[first.value.1..]));
      steps := steps + [first.value.0];
      i := i + first.value.1;
    }
    assert spec[i..] == "";
    assert steps + [] == steps;
    if |steps| > MAX_STEPS {
      return None;
    }
    r := Some(steps);
  }

  // ---------------------------------------------------------------- printing

  predicate IsName(k: string) {
    k != "" && NameStart(k[0]) && forall c | c in k :: NameChar(c)
  }

  /** One step as text: names after a dot, other keys in quotes. */
  function StepText(s: Step): string {
    match s
    case Key(k) => if IsName(k) then "." + k else "['" + k + "']"
    case Index(i) => "[" + IntText(i) + "]"
  }

  function StepsText(p: Path): string {
    if p == [] then "" else StepText(p[0]) + StepsText(p[1..])
  }

  function Print(p: Path): string {
    "$" + StepsText(p)
  }

  /** Keys that can stand between brackets. */
  predicate Printable(p: Path) {
    forall i | 0 <= i < |p| && p[i].Key? :: ']' !in p[i].name
  }

  lemma {:induction false} CharsLenOf(k: string, rest: string)
    requires (forall c | c in k :: NameChar(c)) && (rest == "" || !NameChar(rest[0]))
    ensures CharsLen(k + rest) == |k|
  {
    if k == "" {
      assert k + rest == rest;
    } else {
      CharsLenOf(k[1..], rest);
      assert (k + rest)[1..] == k[1..] + rest;
    }
  }

  lemma NameStep(k: string, rest: string)
    requires IsName(k) && (rest == "" || !NameChar(rest[0]))
    ensures FirstStep("." + k + rest) == Some((Key(k), 1 + |k|))
  {
    var s := "." + k + rest;
    assert s[1..] == k + rest;
    CharsLenOf(k[1..], rest);
    assert (k + rest)[1..] == k[1..] + rest;
    assert s[1..1 + |k|] == k;
  }

  lemma BracketStep(inner: string, rest: string)
    requires ']' !in inner && inner != "" && Trimmed(inner)
    ensures FirstStep("[" + inner + "]" + rest) ==
            if Bracket(inner).None? then None else Some((Bracket(inner).value, |inner| + 2))
  {
    var s := "[" + inner + "]" + rest;
    FirstAfter("[" + inner, ']', rest);
    assert s == ("[" + inner) + [']'] + rest;
    assert s[1..|inner| + 1] == inner;
    TrimmedStays(inner);
  }

  lemma StepReads(step: Step, rest: string)
    requires step.Key? ==> ']' !in step.name
    requires rest == "" || !NameChar(rest[0])
    ensures FirstStep(StepText(step) + rest) == Some((step, |StepText(step)|))
  {
    match step
    case Key(k) =>
      if IsName(k) {
        NameStep(k, rest);
      } else {
        QuotedStep(k, rest);
      }
    case Index(i) =>
      IndexStep(i, rest);
  }

  lemma QuotedStep(k: string, rest: string)
    requires ']' !in k
    ensures FirstStep("['" + k + "']" + rest) == Some((Key(k), |k| + 4))
  {
    var inner := "'" + k + "'";
    BracketStep(inner, rest);
    assert "['" + k + "']" + rest == "[" + inner + "]" + rest;
    assert inner[1..|inner| - 1] == k;
  }

  lemma IndexStep(i: int, rest: string)
    ensures FirstStep("[" + IntText(i) + "]" + rest) == Some((Index(i), |IntText(i)| + 2))
  {
    IntTextIsPlain(i);
    IndexReads(i);
    BracketStep(IntText(i), rest);
  }

  lemma IndexReads(i: int)
    ensures Bracket(IntText(i)) == Some(Index(i))
  {
    IntTextIsPlain(i);
    IntTextReads(i);
  }

  /** A printed path never continues a name. */
  lemma NoNameFront(p: Path)
    ensures StepsText(p) == "" || !NameChar(StepsText(p)[0])
  {
    if p != [] {
      assert StepsText(p)[0] == StepText(p[0])[0];
    }
  }

  lemma ParseStep(t: string, rest: string, step: Step, q: Path)
    requires t != "" && FirstStep(t + rest) == Some((step, |t|)) && Parse(rest) == Some(q)
    ensures Parse(t + rest) == Some([step] + q)
  {
    assert (t + rest)[|t|..] == rest;
  }

  lemma {:induction false} StepsRead(p: Path)
    requires Printable(p)
    ensures Parse(StepsText(p)) == Some(p)
    decreases |p|
  {
    if p != [] {
      StepsRead(p[1..]);
      NoNameFront(p[1..]);
      StepReads(p[0], StepsText(p[1..]));
      ParseStep(StepText(p[0]), StepsText(p[1..]), p[0], p[1..]);
      assert [p[0]] + p[1..] == p;
    }
  }

  /** A printed path compiles back to itself exactly when its text holds no forbidden token and it is not too long. */
  lemma PrintThenCompileIff(p: Path)
    requires Printable(p)
    ensures Compiled(Print(p)) == Some(p) <==> !Forbidden(Print(p)) && |p| <= MAX_STEPS
  {
    StepsRead(p);
    assert Print(p)[1..] == StepsText(p);
  }

  /** Reading a document through a printed path reads it through the path. */
  lemma PrintedPathReads(p: Path, doc: Json)
    requires Printable(p) && !Forbidden(Print(p)) && |p| <= MAX_STEPS
    ensures Compiled(Print(p)).Some? && Extract(doc, Compiled(Print(p)).value) == Extract(doc, p)
  {
    PrintThenCompileIff(p);
  }
}
