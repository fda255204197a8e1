/** The entities the report builder reads, and the string helpers every renderer shares. */
module Types {

  datatype Option<T> = None | Some(value: T)

  /** A source file; `path` is present only when the file resolves to a hosted repository location. */
  datatype File = File(name: string, path: Option<string>)

  /** A method; `id` stands for the identity of the JavaScript object (`line.method === method`). */
  datatype Method = Method(id: nat, name: string, file: File)

  datatype Metric = Metric(algorithm: string, value: real)

  /** A source line; `enclosing` is the source's `method` field; `id` stands for the identity of the JavaScript object (`coverage.line === line`). */
  datatype Line = Line(id: nat, lineNumber: nat, enclosing: Method, metrics: seq<Metric>)

  /** One coverage entry of a test: the line it refers to (by identity) and whether it was executed. */
  datatype Coverage = Coverage(lineId: nat, covered: bool)

  datatype TestCase = TestCase(testName: string, passed: bool, stacktrace: Option<string>, coverage: seq<Coverage>)

  /** What the renderers read from the ambient action state, and the `toFixed(2)` formatter. */
  datatype Context = Context(repoOwner: string, repoName: string, commitSha: string, fixed2: real -> string)

  function Last<T>(s: seq<T>): T
    requires |s| > 0
  {
    s[|s| - 1]
  }

  /** `metrics[k]` is the first metric of `algorithm`, the one `find` stops at. */
  predicate FirstOf(ms: seq<Metric>, algorithm: string, k: int)
  {
    0 <= k < |ms| && ms[k].algorithm == algorithm && forall j :: 0 <= j < k ==> ms[j].algorithm != algorithm
  }

  /** `metrics.find(m => m.algorithm === algorithm)?.suspiciousnessValue`. */
  function MetricOf(line: Line, algorithm: string): Option<real>
  {
    FindMetric(line.metrics, algorithm)
  }

  function FindMetric(ms: seq<Metric>, algorithm: string): Option<real>
  {
    if |ms| == 0 then None
    else if ms[0].algorithm == algorithm then Some(ms[0].value)
    else FindMetric(ms[1..], algorithm)
  }

  /** The search finds nothing exactly when no metric has that algorithm, and otherwise the value of the first one that has it. */
  lemma {:induction false} FindMetricFirst(ms: seq<Metric>, algorithm: string)
    ensures FindMetric(ms, algorithm).None? <==> forall m :: m in ms ==> m.algorithm != algorithm
    ensures forall k :: FirstOf(ms, algorithm, k) ==> FindMetric(ms, algorithm) == Some(ms[k].value)
  {
    if |ms| > 0 && ms[0].algorithm != algorithm {
      FindMetricFirst(ms[1..], algorithm);
      assert forall k :: FirstOf(ms, algorithm, k) ==> FirstOf(ms[1..], algorithm, k - 1);
      assert forall m :: m in ms ==> m == ms[0] || m in ms[1..];
    }
  }

  function Digit(d: nat): (c: char)
    requires d < 10
    ensures '0' <= c <= '9'
  {
    "0123456789"[d]
  }

  /** The decimal text of a line number, as a template literal prints it. */
  function NatToString(n: nat): (r: string)
    ensures |r| > 0
  {
    if n < 10 then [Digit(n)] else NatToString(n / 10) + [Digit(n % 10)]
  }

  /** The text is all decimal digits, more than one exactly from ten on. */
  lemma {:induction false} NatToStringDigits(n: nat)
    ensures forall k :: 0 <= k < |NatToString(n)| ==> '0' <= NatToString(n)[k] <= '9'
    ensures n >= 10 <==> |NatToString(n)| > 1
  {
    if n >= 10 {
      NatToStringDigits(n / 10);
    }
  }

  /** `Array.prototype.join(sep)`. */
  function Join(parts: seq<string>, sep: string): string
  {
    if |parts| == 0 then ""
    else if |parts| == 1 then parts[0]
    else Join(parts[..|parts| - 1], sep) + sep + Last(parts)
  }

  /** Joining one more part: the separator comes before it unless it is the first. */
  lemma {:induction false} JoinStep(parts: seq<string>, k: nat, sep: string)
    requires k < |parts|
    ensures k == 0 ==> Join(parts[..k + 1], sep) == parts[0]
    ensures k > 0 ==> Join(parts[..k + 1], sep) == Join(parts[..k], sep) + sep + parts[k]
  {
    assert parts[..k + 1][..k] == parts[..k];
  }

  /** The strings of `parts`, one after the other. */
  function Concat(parts: seq<string>): string
  {
    if |parts| == 0 then "" else Concat(parts[..|parts| - 1]) + Last(parts)
  }

  lemma {:induction false} ConcatAppend(a: seq<string>, b: seq<string>)
    ensures Concat(a + b) == Concat(a) + Concat(b)
    decreases |b|
  {
    if |b| == 0 {
      assert a + b == a;
    } else {
      assert (a + b)[..|a + b| - 1] == a + b[..|b| - 1];
      ConcatAppend(a, b[..|b| - 1]);
    }
  }

  lemma {:induction false} ConcatSnoc(init: seq<string>, x: string)
    ensures Concat(init + [x]) == Concat(init) + x
  {
    assert (init + [x])[..|init|] == init;
  }

  lemma {:induction false} ConcatCons(x: string, rest: seq<string>)
    ensures Concat([x] + rest) == x + Concat(rest)
  {
    ConcatAppend([x], rest);
    assert [x][..0] == [];
    assert Concat([x]) == Concat([]) + x;
  }

  /** Regrouping a concatenation, stated once so that proofs over long literals need not redo it. */
  lemma AppendAssoc(a: string, b: string, c: string)
    ensures a + (b + c) == (a + b) + c
  {
  }

  predicate StartsWith(s: string, prefix: string)
  {
    |prefix| <= |s| && s[..|prefix|] == prefix
  }

  predicate EndsWith(s: string, suffix: string)
  {
    |suffix| <= |s| && s[|s| - |suffix|..] == suffix
  }
}
