/** The two forward serialisers: the loop bodies of Converter.LocalToPipeline
    (convert.py:26-31) and Converter.PipelineToAzureFAConfig (convert.py:60-69). */
module Formats {
  import opened Outcomes
  import opened Resolution

  /** One (key, value) item of a settings file's "Values" object, in the
      object's insertion order. */
  datatype Entry = Entry(key: string, value: string)

  /** One element of the function-app settings array. */
  datatype Setting = Setting(name: string, value: string, slotSetting: bool)

  /** A parsed JSON object never repeats a key. */
  predicate DistinctKeys(values: seq<Entry>) {
    forall i, j :: 0 <= i < j < |values| ==> values[i].key != values[j].key
  }

  /** Resolve every value in order; the first entry whose resolution fails
      ends the walk with its error. */
  function ResolveAll(values: seq<Entry>, env: string, table: Table): (r: Result<seq<Entry>>)
    ensures r.Ok? ==> |r.value| == |values|
    ensures r.Ok? ==> forall i :: 0 <= i < |values| ==> r.value[i].key == values[i].key
  {
    if values == [] then Ok([])
    else
      var n := |values| - 1;
      match ResolveAll(values[..n], env, table)
      case Err(e) => Err(e)
      case Ok(done) =>
        match Resolve(values[n].key, values[n].value, env, table)
        case Err(e) => Err(e)
        case Ok(v) => Ok(done + [Entry(values[n].key, v)])
  }

  /** ResolveAll succeeds exactly when every entry resolves; it then keeps
      each key in place and pairs it with its resolved value. */
  lemma {:induction false} ResolveAllOk(values: seq<Entry>, env: string, table: Table)
    ensures ResolveAll(values, env, table).Ok? <==>
      forall i :: 0 <= i < |values| ==> Resolve(values[i].key, values[i].value, env, table).Ok?
    ensures ResolveAll(values, env, table).Ok? ==>
      var rs := ResolveAll(values, env, table).value;
      |rs| == |values| &&
      forall i :: 0 <= i < |values| ==>
        rs[i] == Entry(values[i].key, Resolve(values[i].key, values[i].value, env, table).value)
  {
    if values != [] {
      var n := |values| - 1;
      ResolveAllOk(values[..n], env, table);
      if !Resolve(values[n].key, values[n].value, env, table).Ok? {
        assert !ResolveAll(values, env, table).Ok?;
      } else if ResolveAll(values[..n], env, table).Ok? {
        assert ResolveAll(values, env, table).Ok?;
      } else {
        var k :| 0 <= k < n && !Resolve(values[..n][k].key, values[..n][k].value, env, table).Ok?;
        assert values[..n][k] == values[k];
      }
    }
  }

  /** When ResolveAll fails, its error is that of the first entry that does
      not resolve. */
  lemma {:induction false} ResolveAllFirstError(values: seq<Entry>, env: string, table: Table)
    requires ResolveAll(values, env, table).Err?
    ensures exists k :: (0 <= k < |values|
      && (forall i :: 0 <= i < k ==> Resolve(values[i].key, values[i].value, env, table).Ok?)
      && Resolve(values[k].key, values[k].value, env, table) == Err(ResolveAll(values, env, table).error))
  {
    var n := |values| - 1;
    var pre := values[..n];
    if ResolveAll(pre, env, table).Err? {
      ResolveAllFirstError(pre, env, table);
      var k :| 0 <= k < |pre|
        && (forall i :: 0 <= i < k ==> Resolve(pre[i].key, pre[i].value, env, table).Ok?)
        && Resolve(pre[k].key, pre[k].value, env, table) == Err(ResolveAll(pre, env, table).error);
      assert forall i :: 0 <= i <= k ==> pre[i] == values[i];
    } else {
      ResolveAllOk(pre, env, table);
      assert forall i :: 0 <= i < n ==> pre[i] == values[i];
    }
  }

  /** Once a prefix of the entries fails, every longer prefix fails with the
      same error. */
  lemma {:induction false} ResolveAllErrPersists(values: seq<Entry>, i: nat, j: nat, env: string, table: Table)
    requires i <= j <= |values|
    requires ResolveAll(values[..i], env, table).Err?
    ensures ResolveAll(values[..j], env, table) == ResolveAll(values[..i], env, table)
    decreases j - i
  {
    if i < j {
      ResolveAllErrPersists(values, i, j - 1, env, table);
      assert values[..j][..j - 1] == values[..j - 1];
    }
  }

  // ---------------------------------------------------------------------
  // Release-pipeline argument line

  /** One argument: `-{key} "{value}"`, the value neither quoted nor escaped. */
  function Token(key: string, value: string): string {
    "-" + key + " \"" + value + "\""
  }

  function Tokens(es: seq<Entry>): (ts: seq<string>)
    ensures |ts| == |es|
  {
    seq(|es|, i requires 0 <= i < |es| => Token(es[i].key, es[i].value))
  }

  /** Python's ' '.join: the parts separated by single spaces. */
  function SpaceJoin(parts: seq<string>): string {
    if parts == [] then ""
    else if |parts| == 1 then parts[0]
    else parts[0] + " " + SpaceJoin(parts[1..])
  }

  /** A joined line of tokens never starts or ends with a space, and is empty
      exactly when there are no tokens. */
  lemma {:induction false} SpaceJoinTokensEnds(es: seq<Entry>)
    ensures var line := SpaceJoin(Tokens(es));
      (line == "" <==> es == [])
      && (es != [] ==> line[0] == '-' && line[|line| - 1] == '"')
  {
    if |es| >= 2 {
      SpaceJoinTokensEnds(es[1..]);
      assert Tokens(es)[1..] == Tokens(es[1..]);
    }
  }

  /** The argument line of one settings file for one environment. */
  function PipelineLine(values: seq<Entry>, env: string, table: Table): Result<string> {
    match ResolveAll(values, env, table)
    case Err(e) => Err(e)
    case Ok(rs) => Ok(SpaceJoin(Tokens(rs)))
  }

  /** The line is the space-joined `-key "value"` tokens, one per entry in
      input order, each value resolved for the environment. */
  lemma PipelineLineShape(values: seq<Entry>, env: string, table: Table)
    requires PipelineLine(values, env, table).Ok?
    ensures exists ts: seq<string> ::
      PipelineLine(values, env, table).value == SpaceJoin(ts)
      && |ts| == |values|
      && forall i :: 0 <= i < |values| ==>
        Resolve(values[i].key, values[i].value, env, table).Ok?
        && ts[i] == Token(values[i].key, Resolve(values[i].key, values[i].value, env, table).value)
  {
    ResolveAllOk(values, env, table);
    var ts := Tokens(ResolveAll(values, env, table).value);
    assert PipelineLine(values, env, table).value == SpaceJoin(ts);
  }

  /** The loop of LocalToPipeline: append one token per entry, then join. */
  method FormatPipelineLine(values: seq<Entry>, env: string, table: Table) returns (r: Result<string>)
    ensures r == PipelineLine(values, env, table)
  {
    var formatted: seq<string> := [];
    ghost var resolved: seq<Entry> := [];
    for i := 0 to |values|
      invariant ResolveAll(values[..i], env, table) == Ok(resolved)
      invariant formatted == Tokens(resolved)
    {
      var v := Resolve(values[i].key, values[i].value, env, table);
      assert values[..i + 1][..i] == values[..i];
      if v.Err? {
        ResolveAllErrPersists(values, i + 1, |values|, env, table);
        assert values[..|values|] == values;
        return Err(v.error);
      }
      resolved := resolved + [Entry(values[i].key, v.value)];
      formatted := formatted + [Token(values[i].key, v.value)];
    }
    assert values[..|values|] == values;
    r := Ok(SpaceJoin(formatted));
  }

  // ---------------------------------------------------------------------
  // Reading an argument line back

  /** Index of the first `c` in `s`, or |s| when there is none. */
  function IndexOf(s: string, c: char): (i: nat)
    ensures i <= |s|
    ensures i < |s| ==> s[i] == c
    ensures forall j :: 0 <= j < i ==> s[j] != c
  {
    if s == [] then 0
    else if s[0] == c then 0
    else 1 + IndexOf(s[1..], c)
  }

  lemma IndexOfFirst(a: string, c: char, b: string)
    requires c !in a
    ensures IndexOf(a + [c] + b, c) == |a|
  {
    var s := a + [c] + b;
    assert s[|a|] == c;
  }

  /** One `-key "value"` token at the front of `s`, and the text after it. */
  function ParseToken(s: string): (r: Option<(Entry, string)>)
    ensures r.Some? ==> |r.value.1| < |s|
  {
    if s == [] || s[0] != '-' then None
    else
      var t := s[1..];
      var i := IndexOf(t, ' ');
      if i + 1 >= |t| || t[i + 1] != '"' then None
      else
        var u := t[i + 2..];
        var j := IndexOf(u, '"');
        if j == |u| then None
        else Some((Entry(t[..i], u[..j]), u[j + 1..]))
  }

  /** Whatever ParseToken accepts is a token followed by the rest it returns. */
  lemma ParseTokenSound(s: string, e: Entry, rest: string)
    requires ParseToken(s) == Some((e, rest))
    ensures s == Token(e.key, e.value) + rest
  {
    var t, u := ParseTokenFields(s, e, rest);
    TokenOfFields(s, t, u, e.key, e.value, rest);
  }

  /** What ParseToken checked of the text, in terms of its result. */
  lemma ParseTokenFields(s: string, e: Entry, rest: string) returns (t: string, u: string)
    requires ParseToken(s) == Some((e, rest))
    ensures |s| > 0 && s[0] == '-' && t == s[1..]
    ensures |e.key| + 1 < |t| && t[|e.key|] == ' ' && t[|e.key| + 1] == '"' && t[..|e.key|] == e.key
    ensures u == t[|e.key| + 2..] && |e.value| < |u| && u[|e.value|] == '"' && u[..|e.value|] == e.value
    ensures rest == u[|e.value| + 1..]
  {
    t := s[1..];
    u := t[IndexOf(t, ' ') + 2..];
  }

  lemma TokenOfFields(s: string, t: string, u: string, key: string, value: string, rest: string)
    requires |s| > 0 && s[0] == '-' && t == s[1..]
    requires |key| + 1 < |t| && t[|key|] == ' ' && t[|key| + 1] == '"' && t[..|key|] == key
    requires u == t[|key| + 2..] && |value| < |u| && u[|value|] == '"' && u[..|value|] == value
    requires rest == u[|value| + 1..]
    ensures s == Token(key, value) + rest
  {
    assert u == value + "\"" + rest by {
      SplitAround(u, |value|, "\"");
    }
    assert t == key + " \"" + u by {
      SplitAroundTwo(t, |key|, " \"");
    }
    assert s == "-" + t by {
      SplitAround(s, 0, "-");
    }
    TokenOfParts(key, value, rest, u, t, s);
  }

  /** A sequence is what precedes position k, the element at k, and what follows. */
  lemma SplitAroundTwo(s: string, k: nat, c: string)
    requires k + 1 < |s| && c == [s[k], s[k + 1]]
    ensures s == s[..k] + c + s[k + 2..]
  {
    assert s[k..] == c + s[k + 2..];
  }

  lemma SplitAround(s: string, k: nat, c: string)
    requires k < |s| && c == [s[k]]
    ensures s == s[..k] + c + s[k + 1..]
  {
  }

  /** Splits TokenOfFields for the solver: the concatenations regrouped into a token. */
  lemma TokenOfParts(key: string, value: string, rest: string, u: string, t: string, s: string)
    requires u == value + "\"" + rest && t == key + " \"" + u && s == "-" + t
    ensures s == Token(key, value) + rest
  {
  }

  /** A non-empty line: tokens separated by single spaces. */
  function ParseTokens(s: string): Option<seq<Entry>>
    decreases |s|
  {
    match ParseToken(s)
    case None => None
    case Some((e, rest)) =>
      if rest == [] then Some([e])
      else if rest[0] != ' ' then None
      else
        match ParseTokens(rest[1..])
        case None => None
        case Some(es) => Some([e] + es)
  }

  /** Read an argument line back into entries. */
  function ParseLine(s: string): Option<seq<Entry>> {
    if s == [] then Some([]) else ParseTokens(s)
  }

  /** A key without spaces and a value without double quotes can be read back. */
  predicate Unambiguous(e: Entry) {
    ' ' !in e.key && '"' !in e.value
  }

  lemma ParseTokenOfToken(e: Entry, rest: string)
    requires Unambiguous(e)
    ensures ParseToken(Token(e.key, e.value) + rest) == Some((e, rest))
  {
    var s := Token(e.key, e.value) + rest;
    var t := s[1..];
    var u := t[|e.key| + 2..];
    FieldsOfToken(s, t, u, e.key, e.value, rest);
    ParseTokenOfFields(s, t, u, e.key, e.value, rest);
  }

  /** The fields ParseToken checks, read off a token followed by more text. */
  lemma FieldsOfToken(s: string, t: string, u: string, key: string, value: string, rest: string)
    requires s == Token(key, value) + rest && t == s[1..] && u == t[|key| + 2..]
    ensures |s| > 0 && s[0] == '-'
    ensures |key| + 1 < |t| && t[|key|] == ' ' && t[|key| + 1] == '"' && t[..|key|] == key
    ensures |value| < |u| && u[|value|] == '"' && u[..|value|] == value
    ensures rest == u[|value| + 1..]
  {
    assert t == key + " \"" + (value + "\"" + rest);
    assert u == value + "\"" + rest;
  }

  /** ParseToken accepts text with those fields when the key has no space and
      the value no double quote. */
  lemma ParseTokenOfFields(s: string, t: string, u: string, key: string, value: string, rest: string)
    requires ' ' !in key && '"' !in value
    requires |s| > 0 && s[0] == '-' && t == s[1..]
    requires |key| + 1 < |t| && t[|key|] == ' ' && t[|key| + 1] == '"' && t[..|key|] == key
    requires u == t[|key| + 2..] && |value| < |u| && u[|value|] == '"' && u[..|value|] == value
    requires rest == u[|value| + 1..]
    ensures ParseToken(s) == Some((Entry(key, value), rest))
  {
    IndexOfAt(t, ' ', |key|);
    IndexOfAt(u, '"', |value|);
  }

  /** The first `c` is at k when s[k] is `c` and none comes before it. */
  lemma IndexOfAt(s: string, c: char, k: nat)
    requires k < |s| && s[k] == c && c !in s[..k]
    ensures IndexOf(s, c) == k
  {
    assert forall j :: 0 <= j < k ==> s[j] == s[..k][j];
  }

  /** Round trip: when every key is free of spaces and every value free of
      double quotes, the argument line determines the entries it came from. */
  lemma {:induction false} ParseLineRoundTrip(es: seq<Entry>)
    requires forall i :: 0 <= i < |es| ==> Unambiguous(es[i])
    ensures ParseLine(SpaceJoin(Tokens(es))) == Some(es)
  {
    if es != [] {
      ParseTokensRoundTrip(es);
      SpaceJoinTokensEnds(es);
    }
  }

  /** Joining two or more tokens: the first, a space, then the rest joined. */
  lemma SpaceJoinTokensCons(es: seq<Entry>)
    requires |es| >= 2
    ensures SpaceJoin(Tokens(es)) == Token(es[0].key, es[0].value) + (" " + SpaceJoin(Tokens(es[1..])))
  {
    assert Tokens(es)[1..] == Tokens(es[1..]);
  }

  /** Reading a token followed by a space and a non-empty remainder. */
  lemma ParseTokensCons(e: Entry, tail: string)
    requires Unambiguous(e)
    ensures ParseTokens(Token(e.key, e.value) + (" " + tail))
         == match ParseTokens(tail)
            case None => None
            case Some(es) => Some([e] + es)
  {
    var rest := " " + tail;
    ParseTokenOfToken(e, rest);
    assert rest[1..] == tail;
  }

  /** Reading a single token. */
  lemma ParseTokensSingle(e: Entry)
    requires Unambiguous(e)
    ensures ParseTokens(SpaceJoin(Tokens([e]))) == Some([e])
  {
    ParseTokenOfToken(e, "");
    assert Token(e.key, e.value) + "" == Token(e.key, e.value);
  }

  lemma {:induction false} ParseTokensRoundTrip(es: seq<Entry>)
    requires es != []
    requires forall i :: 0 <= i < |es| ==> Unambiguous(es[i])
    ensures ParseTokens(SpaceJoin(Tokens(es))) == Some(es)
  {
    var e := es[0];
    assert Unambiguous(e);
    if |es| == 1 {
      ParseTokensSingle(e);
      assert es == [e];
    } else {
      var tail := es[1..];
      assert forall i :: 0 <= i < |tail| ==> tail[i] == es[i + 1];
      SpaceJoinTokensCons(es);
      ParseTokensRoundTrip(tail);
      ParseTokensConsStep(e, tail, es, SpaceJoin(Tokens(es)), SpaceJoin(Tokens(tail)));
    }
  }

  /** The induction step of the round trip, over plain strings. */
  lemma ParseTokensConsStep(e: Entry, tail: seq<Entry>, es: seq<Entry>, line: string, tailLine: string)
    requires Unambiguous(e) && es == [e] + tail
    requires line == Token(e.key, e.value) + (" " + tailLine)
    requires ParseTokens(tailLine) == Some(tail)
    ensures ParseTokens(line) == Some(es)
  {
    ParseTokensCons(e, tailLine);
  }

  /** Without the restriction on values the line is ambiguous: one entry whose
      value holds quotes prints exactly like two plain entries. */
  lemma QuotedValueIsAmbiguous()
    ensures SpaceJoin(Tokens([Entry("a", "x\" -b \"y")]))
         == SpaceJoin(Tokens([Entry("a", "x"), Entry("b", "y")]))
  {
    assert Tokens([Entry("a", "x"), Entry("b", "y")])[1..] == Tokens([Entry("b", "y")]);
  }

  // ---------------------------------------------------------------------
  // Function-app settings array

  function Settings(es: seq<Entry>): (ss: seq<Setting>)
    ensures |ss| == |es|
  {
    seq(|es|, i requires 0 <= i < |es| => Setting(es[i].key, es[i].value, false))
  }

  /** The settings array of one settings file for one environment. */
  function FunctionAppSettings(values: seq<Entry>, env: string, table: Table): (r: Result<seq<Setting>>)
    ensures r.Ok? ==> |r.value| == |values|
  {
    match ResolveAll(values, env, table)
    case Err(e) => Err(e)
    case Ok(rs) => Ok(Settings(rs))
  }

  /** Same length and key order as the input; entry i carries the i-th key,
      its resolved value, and slotSetting false. */
  lemma FunctionAppSettingsShape(values: seq<Entry>, env: string, table: Table)
    requires FunctionAppSettings(values, env, table).Ok?
    ensures var ss := FunctionAppSettings(values, env, table).value;
      |ss| == |values|
      && forall i :: 0 <= i < |values| ==>
        ss[i].name == values[i].key
        && Resolve(values[i].key, values[i].value, env, table).Ok?
        && ss[i].value == Resolve(values[i].key, values[i].value, env, table).value
        && !ss[i].slotSetting
  {
    ResolveAllOk(values, env, table);
  }

  /** A settings file whose keys are distinct gives an array whose names are
      distinct. */
  lemma FunctionAppNamesDistinct(values: seq<Entry>, env: string, table: Table)
    requires DistinctKeys(values)
    requires FunctionAppSettings(values, env, table).Ok?
    ensures var ss := FunctionAppSettings(values, env, table).value;
      forall i, j :: 0 <= i < j < |ss| ==> ss[i].name != ss[j].name
  {
    FunctionAppSettingsShape(values, env, table);
  }

  /** With no override for the environment, reading (name, value) back out of
      the array gives the input entries. */
  lemma FunctionAppRoundTrip(values: seq<Entry>, env: string, table: Table)
    requires env !in table
    ensures FunctionAppSettings(values, env, table).Ok?
    ensures var ss := FunctionAppSettings(values, env, table).value;
      seq(|ss|, i requires 0 <= i < |ss| => Entry(ss[i].name, ss[i].value)) == values
  {
    ResolveAllOk(values, env, table);
    FunctionAppSettingsShape(values, env, table);
  }

  /** The two serialisers agree: both fail with the same error, or the line
      is the space-joined tokens of the array's (name, value) pairs. */
  lemma LineMatchesSettings(values: seq<Entry>, env: string, table: Table)
    ensures PipelineLine(values, env, table).Ok? <==> FunctionAppSettings(values, env, table).Ok?
    ensures PipelineLine(values, env, table).Err? ==>
      PipelineLine(values, env, table).error == FunctionAppSettings(values, env, table).error
    ensures PipelineLine(values, env, table).Ok? ==>
      var ss := FunctionAppSettings(values, env, table).value;
      PipelineLine(values, env, table).value
        == SpaceJoin(seq(|ss|, i requires 0 <= i < |ss| => Token(ss[i].name, ss[i].value)))
  {
    if PipelineLine(values, env, table).Ok? {
      var rs := ResolveAll(values, env, table).value;
      var ss := Settings(rs);
      assert seq(|ss|, i requires 0 <= i < |ss| => Token(ss[i].name, ss[i].value)) == Tokens(rs);
    }
  }

  /** The loop of PipelineToAzureFAConfig: append one record per entry. */
  method BuildSettings(values: seq<Entry>, env: string, table: Table) returns (r: Result<seq<Setting>>)
    ensures r == FunctionAppSettings(values, env, table)
  {
    var result: seq<Setting> := [];
    ghost var resolved: seq<Entry> := [];
    for i := 0 to |values|
      invariant ResolveAll(values[..i], env, table) == Ok(resolved)
      invariant result == Settings(resolved)
    {
      var v := Resolve(values[i].key, values[i].value, env, table);
      assert values[..i + 1][..i] == values[..i];
      if v.Err? {
        ResolveAllErrPersists(values, i + 1, |values|, env, table);
        assert values[..|values|] == values;
        return Err(v.error);
      }
      resolved := resolved + [Entry(values[i].key, v.value)];
      result := result + [Setting(values[i].key, v.value, false)];
    }
    assert values[..|values|] == values;
    r := Ok(result);
  }

  // ---------------------------------------------------------------------
  // Worked examples

  /** Resolving two entries, one after the other. */
  lemma ResolveAllTwo(e1: Entry, e2: Entry, env: string, table: Table, v1: string, v2: string)
    requires Resolve(e1.key, e1.value, env, table) == Ok(v1)
    requires Resolve(e2.key, e2.value, env, table) == Ok(v2)
    ensures ResolveAll([e1, e2], env, table) == Ok([Entry(e1.key, v1), Entry(e2.key, v2)])
    ensures SpaceJoin(Tokens([Entry(e1.key, v1), Entry(e2.key, v2)])) == Token(e1.key, v1) + " " + Token(e2.key, v2)
  {
    var values := [e1, e2];
    var first := [e1];
    assert first[..0] == [];
    assert ResolveAll(first[..0], env, table) == Ok([]);
    assert first[|first| - 1] == e1;
    assert Resolve(first[|first| - 1].key, first[|first| - 1].value, env, table) == Ok(v1);
    assert [] + [Entry(e1.key, v1)] == [Entry(e1.key, v1)];
    assert ResolveAll(first, env, table) == Ok([Entry(e1.key, v1)]);
    assert values[..1] == first;
    assert ResolveAll(values[..1], env, table) == Ok([Entry(e1.key, v1)]);
    assert values[|values| - 1] == e2;
    assert Resolve(values[|values| - 1].key, values[|values| - 1].value, env, table) == Ok(v2);
    assert [Entry(e1.key, v1)] + [Entry(e2.key, v2)] == [Entry(e1.key, v1), Entry(e2.key, v2)];
    assert Tokens([Entry(e1.key, v1), Entry(e2.key, v2)])[1..] == [Token(e2.key, v2)];
  }

  /** Two plain settings for "dev" with no overrides. */
  lemma ExampleWithoutOverrides()
    ensures PipelineLine([Entry("ApiKey", "abc"), Entry("Debug", "true")], "dev", map[])
         == Ok("-ApiKey \"abc\" -Debug \"true\"")
    ensures FunctionAppSettings([Entry("ApiKey", "abc"), Entry("Debug", "true")], "dev", map[])
         == Ok([Setting("ApiKey", "abc", false), Setting("Debug", "true", false)])
  {
    ResolveAllTwo(Entry("ApiKey", "abc"), Entry("Debug", "true"), "dev", map[], "abc", "true");
    assert Token("ApiKey", "abc") + " " + Token("Debug", "true") == "-ApiKey \"abc\" -Debug \"true\"";
    assert Settings([Entry("ApiKey", "abc"), Entry("Debug", "true")])
        == [Setting("ApiKey", "abc", false), Setting("Debug", "true", false)];
  }

  /** An override that points at another environment takes that
      environment's value; the other key keeps its raw value. */
  lemma ExampleWithIndirection()
    ensures var table := map["dev" := map["ApiKey" := "#$prod$#"], "prod" := map["ApiKey" := "p-key"]];
      PipelineLine([Entry("ApiKey", "abc"), Entry("Debug", "true")], "dev", table)
        == Ok("-ApiKey \"p-key\" -Debug \"true\"")
  {
    var table := map["dev" := map["ApiKey" := "#$prod$#"], "prod" := map["ApiKey" := "p-key"]];
    MarkerRoundTrip("prod");
    assert Marker("prod") == "#$prod$#";
    ResolveThroughMarker("ApiKey", "abc", "dev", "prod", table);
    assert "Debug" !in table["dev"];
    ResolveWithoutOverride("Debug", "true", "dev", table);
    ResolveAllTwo(Entry("ApiKey", "abc"), Entry("Debug", "true"), "dev", table, "p-key", "true");
    assert Token("ApiKey", "p-key") == "-ApiKey \"p-key\"";
    assert Token("Debug", "true") == "-Debug \"true\"";
    JoinedExampleLine();
  }

  /** Splits ExampleWithIndirection for the solver: the literal join on its own. */
  lemma JoinedExampleLine()
    ensures "-ApiKey \"p-key\"" + " " + "-Debug \"true\"" == "-ApiKey \"p-key\" -Debug \"true\""
  {
  }
}
