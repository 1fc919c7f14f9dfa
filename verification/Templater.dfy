/** SQL templates: app/cache/templater.py. */
module Templater {
  import opened Wrappers
  import opened Characters
  import opened Numerals
  import opened Sql
  import opened Injector
  import opened Guard
  import opened Fixer

  // ---- Dates ----

  /** `\d{4}-\d{2}-\d{2}`. */
  predicate IsIsoDate(s: string) {
    |s| == 10 && AllDigits(s[..4]) && s[4] == '-' && AllDigits(s[5..7]) && s[7] == '-' && AllDigits(s[8..])
  }

  /** `\d{2}:\d{2}:\d{2}`. */
  predicate IsClock(s: string) {
    |s| == 8 && AllDigits(s[..2]) && s[2] == ':' && AllDigits(s[3..5]) && s[5] == ':' && AllDigits(s[6..])
  }

  predicate IsDateLiteral(value: string) {
    var s := Strip(value);
    IsIsoDate(s) || (|s| == 19 && IsIsoDate(s[..10]) && (s[10] == ' ' || s[10] == 'T') && IsClock(s[11..]))
  }

  /** Year, month and day of a date, in this order. */
  function DateText(year: nat, month: nat, day: nat): string {
    Padded(year, 4) + "-" + Padded(month, 2) + "-" + Padded(day, 2)
  }

  /** What counts as a date is what a year, a month and a day can be written as; the calendar is not asked. */
  lemma IsoDatesAre(s: string)
    ensures IsIsoDate(s) <==> exists year, month, day :: s == DateText(year, month, day)
  {
    if IsIsoDate(s) {
      var year, month, day := DateRead(s);
      assert s == DateText(year, month, day);
    }
    if year, month, day :| s == DateText(year, month, day) {
      DateWritten(year, month, day);
    }
  }

  lemma DateRead(s: string) returns (year: nat, month: nat, day: nat)
    requires IsIsoDate(s)
    ensures s == DateText(year, month, day)
  {
    year, month, day := Parse(s[..4]), Parse(s[5..7]), Parse(s[8..]);
    PaddedParse(s[..4]);
    PaddedParse(s[5..7]);
    PaddedParse(s[8..]);
    assert s == s[..4] + "-" + s[5..7] + "-" + s[8..];
  }

  lemma DateWritten(year: nat, month: nat, day: nat)
    ensures IsIsoDate(DateText(year, month, day))
  {
    PaddedDigits(year, 4);
    PaddedDigits(month, 2);
    PaddedDigits(day, 2);
    PiecesFound(Padded(year, 4), Padded(month, 2), Padded(day, 2), DateText(year, month, day));
  }

  lemma PiecesFound(a: string, b: string, c: string, s: string)
    requires |a| == 4 && |b| == |c| == 2 && s == a + "-" + b + "-" + c
    ensures |s| == 10 && s[..4] == a && s[4] == '-' && s[5..7] == b && s[7] == '-' && s[8..] == c
  {
  }

  function ClockText(hour: nat, minute: nat, second: nat): string {
    Padded(hour, 2) + ":" + Padded(minute, 2) + ":" + Padded(second, 2)
  }

  lemma ClocksAre(s: string)
    ensures IsClock(s) <==> exists hour, minute, second :: s == ClockText(hour, minute, second)
  {
    if IsClock(s) {
      var hour, minute, second := ClockRead(s);
      assert s == ClockText(hour, minute, second);
    }
    if hour, minute, second :| s == ClockText(hour, minute, second) {
      ClockWritten(hour, minute, second);
    }
  }

  lemma ClockRead(s: string) returns (hour: nat, minute: nat, second: nat)
    requires IsClock(s)
    ensures s == ClockText(hour, minute, second)
  {
    hour, minute, second := Parse(s[..2]), Parse(s[3..5]), Parse(s[6..]);
    PaddedParse(s[..2]);
    PaddedParse(s[3..5]);
    PaddedParse(s[6..]);
    assert s == s[..2] + ":" + s[3..5] + ":" + s[6..];
  }

  lemma ClockWritten(hour: nat, minute: nat, second: nat)
    ensures IsClock(ClockText(hour, minute, second))
  {
    PaddedDigits(hour, 2);
    PaddedDigits(minute, 2);
    PaddedDigits(second, 2);
    ClockPiecesFound(Padded(hour, 2), Padded(minute, 2), Padded(second, 2), ClockText(hour, minute, second));
  }

  lemma ClockPiecesFound(a: string, b: string, c: string, s: string)
    requires |a| == |b| == |c| == 2 && s == a + ":" + b + ":" + c
    ensures |s| == 8 && s[..2] == a && s[2] == ':' && s[3..5] == b && s[5] == ':' && s[6..] == c
  {
  }

  /** The literals that become dates: a date, alone or followed by a space or a T and a time of day. */
  ghost predicate SaysDate(s: string) {
    || (exists year, month, day :: s == DateText(year, month, day))
    || (|s| > 11 && (exists year, month, day :: s[..10] == DateText(year, month, day)) && (s[10] == ' ' || s[10] == 'T')
        && exists hour, minute, second :: s[11..] == ClockText(hour, minute, second))
  }

  lemma DateLiteralsAre(value: string)
    ensures IsDateLiteral(value) <==> SaysDate(Strip(value))
  {
    var s := Strip(value);
    IsoDatesAre(s);
    if |s| > 11 {
      IsoDatesAre(s[..10]);
      ClocksAre(s[11..]);
    }
  }

  predicate DateAt(q: string, i: nat) {
    i + 10 <= |q| && IsIsoDate(q[i..i + 10])
  }

  /** The leftmost calendar date in a question, if any. */
  ghost predicate IsFirstDate(q: string, d: Option<string>) {
    match d
    case None => forall i: nat :: !DateAt(q, i)
    case Some(s) => exists i: nat :: DateAt(q, i) && q[i..i + 10] == s && forall j: nat :: j < i ==> !DateAt(q, j)
  }

  function FirstDateFrom(q: string, i: nat): Option<string>
    decreases |q| - i
  {
    if i + 10 > |q| then None
    else if DateAt(q, i) then Some(q[i..i + 10])
    else FirstDateFrom(q, i + 1)
  }

  lemma {:induction false} FirstDateFromMeaning(q: string, i: nat)
    requires forall j: nat :: j < i ==> !DateAt(q, j)
    ensures IsFirstDate(q, FirstDateFrom(q, i))
    decreases |q| - i
  {
    if i + 10 <= |q| && !DateAt(q, i) {
      FirstDateFromMeaning(q, i + 1);
    }
  }

  /** `_EXPLICIT_DATE_RE.search(question)`. */
  function FirstDate(q: string): (d: Option<string>)
    ensures IsFirstDate(q, d)
  {
    FirstDateFromMeaning(q, 0);
    FirstDateFrom(q, 0)
  }

  // ---- Parameterizing ----

  datatype Param = DateParam(value: string) | StrParam(value: string)

  type Spec = map<string, Param>

  /** What counts as a date is a parameter up to here; it is `IsDateLiteral` in the end. */
  type DateTest = string -> bool

  predicate IsDateLeaf(isDate: DateTest, l: Leaf) {
    l.StrLit? && isDate(l.text)
  }

  predicate IsStrLeaf(isDate: DateTest, l: Leaf) {
    l.StrLit? && !isDate(l.text)
  }

  /** How many of the first `k` literals are date strings, and how many other strings. */
  function DateCount(isDate: DateTest, lits: seq<Leaf>, k: nat): nat
    requires k <= |lits|
  {
    if k == 0 then 0 else DateCount(isDate, lits, k - 1) + if IsDateLeaf(isDate, lits[k - 1]) then 1 else 0
  }

  function StrCount(isDate: DateTest, lits: seq<Leaf>, k: nat): nat
    requires k <= |lits|
  {
    if k == 0 then 0 else StrCount(isDate, lits, k - 1) + if IsStrLeaf(isDate, lits[k - 1]) then 1 else 0
  }

  function Name(date: bool, n: nat): string {
    (if date then "date" else "str") + Decimal(n)
  }

  /** The placeholder name of string literal `k`. */
  function NameAt(isDate: DateTest, lits: seq<Leaf>, k: nat): string
    requires k < |lits|
  {
    if IsDateLeaf(isDate, lits[k]) then Name(true, DateCount(isDate, lits, k) + 1) else Name(false, StrCount(isDate, lits, k) + 1)
  }

  function ParamOf(isDate: DateTest, l: Leaf): Param
    requires l.StrLit?
  {
    if IsDateLeaf(isDate, l) then DateParam(l.text) else StrParam(l.text)
  }

  function SpecUpTo(isDate: DateTest, lits: seq<Leaf>, k: nat): Spec
    requires k <= |lits|
  {
    if k == 0 then map[]
    else if lits[k - 1].StrLit? then SpecUpTo(isDate, lits, k - 1)[NameAt(isDate, lits, k - 1) := ParamOf(isDate, lits[k - 1])]
    else SpecUpTo(isDate, lits, k - 1)
  }

  function HoleAt(isDate: DateTest, lits: seq<Leaf>, k: nat): Leaf
    requires k < |lits|
  {
    if lits[k].StrLit? then Hole(NameAt(isDate, lits, k)) else lits[k]
  }

  function HoleUpTo(isDate: DateTest, lits: seq<Leaf>, k: nat): (r: seq<Leaf>)
    requires k <= |lits|
    ensures |r| == |lits|
    ensures forall j :: 0 <= j < |lits| ==> r[j] == if j < k then HoleAt(isDate, lits, j) else lits[j]
  {
    if k == 0 then lits else HoleUpTo(isDate, lits, k - 1)[k - 1 := HoleAt(isDate, lits, k - 1)]
  }

  function SpecOf(t: Tree): Spec {
    SpecUpTo(IsDateLiteral, t.lits, |t.lits|)
  }

  function TemplateOf(t: Tree): Tree {
    t.(lits := HoleUpTo(IsDateLiteral, t.lits, |t.lits|))
  }

  /** The loop of `parameterize_sql`: replaces each string literal in place and records it. */
  method ParameterizeInPlace(a: Ast) returns (spec: Spec)
    modifies a.lits
    ensures a.View() == TemplateOf(old(a.View())) && spec == SpecOf(old(a.View()))
  {
    ghost var lits := a.lits[..];
    spec := map[];
    var dateN, strN, k := 0, 0, 0;
    while k < a.lits.Length
      invariant k <= a.lits.Length
      invariant dateN == DateCount(IsDateLiteral, lits, k) && strN == StrCount(IsDateLiteral, lits, k)
      invariant spec == SpecUpTo(IsDateLiteral, lits, k) && a.lits[..] == HoleUpTo(IsDateLiteral, lits, k)
    {
      var literal := a.lits[k];
      assert literal == HoleUpTo(IsDateLiteral, lits, k)[k] == lits[k];
      if literal.StrLit? {
        var name;
        if IsDateLiteral(literal.text) {
          dateN := dateN + 1;
          name := Name(true, dateN);
          spec := spec[name := DateParam(literal.text)];
        } else {
          strN := strN + 1;
          name := Name(false, strN);
          spec := spec[name := StrParam(literal.text)];
        }
        a.lits[k] := Hole(name);
      }
      k := k + 1;
    }
  }

  /** A string literal that becomes a date, or one that does not. */
  ghost predicate IsLiteralOf(date: bool, l: Leaf) {
    l.StrLit? && (SaysDate(Strip(l.text)) <==> date)
  }

  /** Which of the literals these are. */
  ghost function Marks(date: bool, lits: seq<Leaf>): (marks: seq<bool>)
    ensures |marks| == |lits| && forall k :: 0 <= k < |lits| ==> (marks[k] <==> IsLiteralOf(date, lits[k]))
  {
    if lits == [] then [] else [IsLiteralOf(date, lits[0])] + Marks(date, lits[1..])
  }

  ghost function MarkedBefore(marks: seq<bool>, k: nat): set<nat>
    requires k <= |marks|
  {
    set j: nat | j < k && marks[j]
  }

  /** How many literals of the kind come before `k`. */
  ghost function Earlier(date: bool, lits: seq<Leaf>, k: nat): nat
    requires k <= |lits|
  {
    |MarkedBefore(Marks(date, lits), k)|
  }

  lemma MarkedStep(marks: seq<bool>, k: nat, next: nat)
    requires k < |marks| && next == k + 1
    ensures |MarkedBefore(marks, next)| == |MarkedBefore(marks, k)| + if marks[k] then 1 else 0
  {
    var before, after := MarkedBefore(marks, k), MarkedBefore(marks, next);
    assert k !in before;
    if marks[k] {
      assert after == before + {k};
    } else {
      assert after == before;
    }
  }

  lemma LiteralIs(l: Leaf)
    ensures IsDateLeaf(IsDateLiteral, l) <==> IsLiteralOf(true, l)
    ensures IsStrLeaf(IsDateLiteral, l) <==> IsLiteralOf(false, l)
  {
    if l.StrLit? {
      DateLiteralsAre(l.text);
    }
  }

  lemma MarksAre(lits: seq<Leaf>, k: nat)
    requires k < |lits|
    ensures Marks(true, lits)[k] == IsDateLeaf(IsDateLiteral, lits[k]) && Marks(false, lits)[k] == IsStrLeaf(IsDateLiteral, lits[k])
  {
    LiteralIs(lits[k]);
  }

  lemma {:induction false} CountsAre(lits: seq<Leaf>, k: nat)
    requires k <= |lits|
    ensures DateCount(IsDateLiteral, lits, k) == Earlier(true, lits, k) && StrCount(IsDateLiteral, lits, k) == Earlier(false, lits, k)
  {
    var dates, others := Marks(true, lits), Marks(false, lits);
    if k == 0 {
      assert MarkedBefore(dates, k) == {} == MarkedBefore(others, k);
    } else {
      var j: nat := k - 1;
      CountsAre(lits, j);
      MarkedStep(dates, j, k);
      MarkedStep(others, j, k);
      MarksAre(lits, j);
    }
  }

  /** In the template, a string literal is a placeholder: "date" or "str" and its number among the literals of its kind, from 1. */
  lemma PlaceholdersAre(t: Tree, k: nat)
    requires k < |t.lits|
    ensures var l := t.lits[k];
      TemplateOf(t).lits[k] ==
        if IsLiteralOf(true, l) then Hole("date" + Decimal(Earlier(true, t.lits, k) + 1))
        else if IsLiteralOf(false, l) then Hole("str" + Decimal(Earlier(false, t.lits, k) + 1))
        else l
  {
    CountsAre(t.lits, k);
    LiteralIs(t.lits[k]);
    assert t.lits[k].StrLit? ==> IsDateLeaf(IsDateLiteral, t.lits[k]) || IsStrLeaf(IsDateLiteral, t.lits[k]);
  }

  // ---- Binding ----

  function BindLeaf(spec: Spec, date: Option<string>, l: Leaf): Leaf {
    if l.Hole? && l.name in spec then
      var p := spec[l.name];
      StrLit(if p.DateParam? && date.Some? then date.value else p.value)
    else l
  }

  function BindLeaves(spec: Spec, date: Option<string>, lits: seq<Leaf>): (r: seq<Leaf>)
    ensures |r| == |lits| && forall k :: 0 <= k < |lits| ==> r[k] == BindLeaf(spec, date, lits[k])
  {
    if lits == [] then [] else [BindLeaf(spec, date, lits[0])] + BindLeaves(spec, date, lits[1..])
  }

  function BindTree(t: Tree, spec: Spec, question: string): Tree {
    t.(lits := BindLeaves(spec, FirstDate(question), t.lits))
  }

  /** The loop of `bind_template`. */
  method BindInPlace(a: Ast, spec: Spec, question: string)
    modifies a.lits
    ensures a.View() == BindTree(old(a.View()), spec, question)
  {
    ghost var lits := a.lits[..];
    var date := FirstDate(question);
    var k := 0;
    while k < a.lits.Length
      invariant k <= a.lits.Length
      invariant forall j :: 0 <= j < a.lits.Length ==> a.lits[j] == if j < k then BindLeaf(spec, date, lits[j]) else lits[j]
    {
      if a.lits[k].Hole? && a.lits[k].name in spec {
        var p := spec[a.lits[k].name];
        a.lits[k] := StrLit(if p.DateParam? && date.Some? then date.value else p.value);
      }
      k := k + 1;
    }
    assert a.lits[..] == BindLeaves(spec, date, lits);
  }

  // ---- On text ----

  function ParameterizedText(sql: SqlText): (SqlText, Spec) {
    match sql
    case Unparseable(_) => (sql, map[])
    case Parsed(t, _) => (Parsed(TemplateOf(t), []), SpecOf(t))
  }

  method ParameterizeSql(sql: SqlText) returns (template: SqlText, spec: Spec)
    ensures (template, spec) == ParameterizedText(sql)
  {
    if sql.Unparseable? {
      return sql, map[];
    }
    var a := new Ast.Parse(sql.first);
    spec := ParameterizeInPlace(a);
    template := Parsed(a.View(), []);
  }

  /** The textual fallback for templates that do not parse is not modelled; such a template comes back unchanged. */
  function BoundText(template: SqlText, spec: Spec, question: string): SqlText {
    match template
    case Unparseable(_) => template
    case Parsed(t, _) => Parsed(BindTree(t, spec, question), [])
  }

  method BindTemplate(template: SqlText, spec: Spec, question: string) returns (sql: SqlText)
    ensures sql == BoundText(template, spec, question)
  {
    if template.Unparseable? {
      return template;
    }
    var a := new Ast.Parse(template.first);
    BindInPlace(a, spec, question);
    return Parsed(a.View(), []);
  }

  // ---- Names do not collide ----

  lemma {:induction false} CountsGrow(isDate: DateTest, lits: seq<Leaf>, j: nat, k: nat)
    requires j < k <= |lits|
    ensures DateCount(isDate, lits, k) >= DateCount(isDate, lits, j) + (if IsDateLeaf(isDate, lits[j]) then 1 else 0)
    ensures StrCount(isDate, lits, k) >= StrCount(isDate, lits, j) + (if IsStrLeaf(isDate, lits[j]) then 1 else 0)
  {
    if j < k - 1 {
      CountsGrow(isDate, lits, j, k - 1);
    }
  }

  lemma NameInjective(date: bool, n: nat, date': bool, n': nat)
    ensures Name(date, n) == Name(date', n') ==> date == date' && n == n'
  {
    var a, b := Name(date, n), Name(date', n');
    assert a[0] == 'd' <==> date;
    assert b[0] == 'd' <==> date';
    assert a[(if date then 4 else 3)..] == Decimal(n);
    assert b[(if date' then 4 else 3)..] == Decimal(n');
    ParseDecimal(n);
    ParseDecimal(n');
  }

  /** Different string literals get different names. */
  lemma NamesDistinct(isDate: DateTest, lits: seq<Leaf>, j: nat, k: nat)
    requires j < k < |lits| && lits[j].StrLit? && lits[k].StrLit?
    ensures NameAt(isDate, lits, j) != NameAt(isDate, lits, k)
  {
    CountsGrow(isDate, lits, j, k);
    var d, d' := IsDateLeaf(isDate, lits[j]), IsDateLeaf(isDate, lits[k]);
    var n := if d then DateCount(isDate, lits, j) + 1 else StrCount(isDate, lits, j) + 1;
    var n' := if d' then DateCount(isDate, lits, k) + 1 else StrCount(isDate, lits, k) + 1;
    NameInjective(d, n, d', n');
  }

  /** The specification holds exactly the names given out, each with the literal it replaced. */
  lemma {:induction false} SpecMeaning(isDate: DateTest, lits: seq<Leaf>, k: nat)
    requires k <= |lits|
    ensures forall j :: 0 <= j < k && lits[j].StrLit? ==>
      NameAt(isDate, lits, j) in SpecUpTo(isDate, lits, k) && SpecUpTo(isDate, lits, k)[NameAt(isDate, lits, j)] == ParamOf(isDate, lits[j])
    ensures forall name :: name in SpecUpTo(isDate, lits, k) ==> exists j :: 0 <= j < k && lits[j].StrLit? && NameAt(isDate, lits, j) == name
  {
    if k > 0 {
      SpecMeaning(isDate, lits, k - 1);
      forall j | 0 <= j < k - 1 && lits[j].StrLit? && lits[k - 1].StrLit? ensures NameAt(isDate, lits, j) != NameAt(isDate, lits, k - 1) {
        NamesDistinct(isDate, lits, j, k - 1);
      }
    }
  }

  // ---- The round trip ----

  function RedatedLeaf(date: Option<string>, l: Leaf): Leaf {
    if IsDateLeaf(IsDateLiteral, l) && date.Some? then StrLit(date.value) else l
  }

  /** `t2` is `t` with each date literal replaced by the question's first date, if it has one; nothing else differs. */
  ghost predicate Redated(t: Tree, question: string, t2: Tree) {
    |t2.lits| == |t.lits| && t2 == t.(lits := t2.lits)
    && forall k :: 0 <= k < |t.lits| ==> t2.lits[k] == RedatedLeaf(FirstDate(question), t.lits[k])
  }

  /** No placeholder of the original statement carries a generated name. */
  predicate NoNameTaken(t: Tree) {
    forall k :: 0 <= k < |t.lits| && t.lits[k].Hole? ==> t.lits[k].name !in SpecOf(t)
  }

  /** Binding a template gives back the statement, its date literals replaced by the question's first date (if any), exactly
      when no placeholder of the statement has one of the generated names. */
  lemma TemplateRoundTrip(t: Tree, question: string)
    ensures Redated(t, question, BindTree(TemplateOf(t), SpecOf(t), question)) <==> NoNameTaken(t)
  {
    SpecMeaning(IsDateLiteral, t.lits, |t.lits|);
    var bound := BindTree(TemplateOf(t), SpecOf(t), question);
    forall k | 0 <= k < |t.lits|
      ensures bound.lits[k] == RedatedLeaf(FirstDate(question), t.lits[k])
         <==> !(t.lits[k].Hole? && t.lits[k].name in SpecOf(t))
    {
      assert TemplateOf(t).lits[k] == HoleAt(IsDateLiteral, t.lits, k);
    }
  }

  /** Binding fills a placeholder of the statement itself if it has a generated name: `'x', :str1` comes back as `'x', 'x'`. */
  lemma TakenNameIsFilled(t: Tree, question: string)
    requires t.lits == [StrLit("x"), Hole("str1")]
    ensures !NoNameTaken(t) && BindTree(TemplateOf(t), SpecOf(t), question).lits == [StrLit("x"), StrLit("x")]
  {
    var isDate, lits := IsDateLiteral, t.lits;
    assert Strip("x") == "x";
    assert !IsDateLeaf(isDate, lits[0]);
    assert StrCount(isDate, lits, 0) == 0 && Decimal(1) == "1";
    assert NameAt(isDate, lits, 0) == "str1";
    assert SpecUpTo(isDate, lits, 0) == map[] && SpecUpTo(isDate, lits, 1) == map["str1" := StrParam("x")];
    assert SpecOf(t) == map["str1" := StrParam("x")];
    assert TemplateOf(t).lits[0] == Hole("str1") && TemplateOf(t).lits[1] == Hole("str1");
    assert lits[1].Hole? && lits[1].name in SpecOf(t);
  }

  /** Without a date in the question, the statement comes back unchanged. */
  lemma TemplateRoundTripPlain(t: Tree, question: string)
    requires NoNameTaken(t) && FirstDate(question).None?
    ensures BindTree(TemplateOf(t), SpecOf(t), question) == t
  {
    TemplateRoundTrip(t, question);
    assert BindTree(TemplateOf(t), SpecOf(t), question).lits == t.lits;
  }

  /** Whatever question a template is bound for, the bound statement is the original up to its literals, so the fixer rewrites
      it the same way and the guard gives the same verdict. */
  lemma BoundVerdict(cat: Catalog, raw: SqlText, question: string)
    ensures var (template, spec) := ParameterizedText(raw);
      AssertSafe(cat, FixText(cat, raw)).Ok? ==> AssertSafe(cat, FixText(cat, BoundText(template, spec, question))).Ok?
  {
    if raw.Parsed? {
      var t := raw.first;
      var b := BindTree(TemplateOf(t), SpecOf(t), question);
      assert b == t.(lits := b.lits);
      FixIgnoresLiterals(cat, t, b.lits);
      VerdictIgnoresLeaves(cat, t, FixTree(cat, t).cols, b.lits);
      VerdictIgnoresLeaves(cat, t, FixTree(cat, t).cols, t.lits);
      VerdictIgnoresLeaves(cat, t, t.cols, b.lits);
    }
  }
}
