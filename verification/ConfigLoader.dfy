/** Loading configuration: the .env line parser, the paged parameter store, and
    the layered merge. */
module ConfigLoader {
  import opened Options
  import opened Text

  type Vars = map<string, string>

  // ---------------------------------------------------------------- .env files

  predicate Wrapped(v: string, quote: char) {
    v != [] && v[0] == quote && v[|v| - 1] == quote
  }

  /** slice(1, -1): a lone quote, which starts and ends itself, becomes empty. */
  function Unquote(v: string): string {
    if Wrapped(v, '"') || Wrapped(v, '\'') then (if |v| == 1 then [] else v[1..|v| - 1]) else v
  }

  /** The assignment on a line; None for blanks, comments and lines without "=". */
  function ParseLine(line: string): Option<(string, string)> {
    var trimmed := Trim(line);
    var separator := IndexOf(trimmed, '=');
    if trimmed == [] || trimmed[0] == '#' || separator == -1 then None
    else Some((Trim(trimmed[..separator]), Unquote(Trim(trimmed[separator + 1..]))))
  }

  function Assign(vars: Vars, line: string): Vars {
    var kv := ParseLine(line);
    if kv.None? then vars else vars[kv.value.0 := kv.value.1]
  }

  /** Lines from the top; a later assignment wins. */
  function ParseLines(lines: seq<string>): Vars {
    if lines == [] then map[] else Assign(ParseLines(lines[..|lines| - 1]), lines[|lines| - 1])
  }

  function ParseEnv(content: string): Vars {
    ParseLines(Split(content, '\n'))
  }

  /** The body of the loop over lines; None is its `continue`. */
  method ReadLine(line: string) returns (entry: Option<(string, string)>)
    ensures entry == ParseLine(line)
  {
    hide Trim, IndexOf;
    var trimmed := Trim(line);
    if trimmed == [] || trimmed[0] == '#' { return None; }
    var separatorIndex := IndexOf(trimmed, '=');
    if separatorIndex == -1 { return None; }
    var key := Trim(trimmed[..separatorIndex]);
    var value := Trim(trimmed[separatorIndex + 1..]);
    if Wrapped(value, '"') || Wrapped(value, '\'') {
      value := if |value| == 1 then [] else value[1..|value| - 1];
    }
    entry := Some((key, value));
  }

  /** A missing file is an empty one. */
  method ParseEnvFile(file: Option<string>) returns (result: Vars)
    ensures result == if file.None? then map[] else ParseEnv(file.value)
  {
    if file.None? { return map[]; }
    hide ParseLines, ParseLine, Split;
    result := map[];
    NoLines();
    var lines := Split(file.value, '\n');
    var i := 0;
    while i < |lines|
      invariant 0 <= i <= |lines|
      invariant result == ParseLines(lines[..i])
    {
      var line := lines[i];
      NextLine(lines, i);
      i := i + 1;
      var entry := ReadLine(line);
      if entry.None? { continue; }
      result := result[entry.value.0 := entry.value.1];
    }
    assert lines[..i] == lines;
  }

  lemma NoLines()
    ensures ParseLines([]) == map[]
  {
  }

  lemma NextLine(lines: seq<string>, i: nat)
    requires i < |lines|
    ensures ParseLines(lines[..i + 1]) == Assign(ParseLines(lines[..i]), lines[i])
  {
    hide ParseLine;
    assert lines[..i + 1][..i] == lines[..i];
  }

  lemma {:induction false} ParseLinesConcat(a: seq<string>, b: seq<string>)
    ensures ParseLines(a + b) == ParseLines(a) + ParseLines(b)
  {
    hide ParseLine;
    if b == [] {
      assert a + b == a;
    } else {
      var n := |b| - 1;
      ParseLinesConcat(a, b[..n]);
      assert (a + b)[..|a| + n] == a + b[..n] && (a + b)[|a| + n] == b[n];
    }
  }

  /** Two files one after the other are merged, the second winning. */
  lemma ConcatenationMerges(a: string, b: string)
    ensures ParseEnv(a + "\n" + b) == ParseEnv(a) + ParseEnv(b)
  {
    SplitAt(a, '\n', b);
    ParseLinesConcat(Split(a, '\n'), Split(b, '\n'));
  }

  /** A variable name that survives on the left of an equals sign. */
  predicate PlainKey(key: string) {
    key != [] && Trimmed(key) && key[0] != '#' && '=' !in key && '\n' !in key
  }

  /** White space around the name and around the value makes no difference. */
  lemma LayoutDoesNotMatter(key: string, v: string, a: string, b: string, c: string, d: string)
    requires PlainKey(key) && Trimmed(v)
    requires Blank(a) && Blank(b) && Blank(c) && Blank(d)
    ensures ParseLine(a + key + b + "=" + c + v + d) == Some((key, Unquote(v)))
  {
    hide Trim, Trimmed, Blank, ParseLine, Unquote, IndexOf;
    var left, rest := key + b, if v == [] then [] else c + v;
    var tail := if v == [] then c + d else d;
    var core, line := left + ['='] + rest, a + key + b + "=" + c + v + d;
    assert line == a + core + tail by { assert "=" == ['=']; }
    LayoutParts(key, v, b, c, d);
    TrimPadded(a, core, tail);
    TrimTrims(core);
    OnlyTrimmedCounts(line, core);
    ParseTrimmedLine(left, rest);
    TrimPadded([], key, b);
    assert [] + key + b == left;
    if v == [] {
      TrimTrims(rest);
    } else {
      TrimPadded(c, v, []);
      assert c + v + [] == rest;
    }
  }

  lemma LayoutParts(key: string, v: string, b: string, c: string, d: string)
    requires PlainKey(key) && Trimmed(v) && Blank(b) && Blank(c) && Blank(d)
    ensures var left, rest := key + b, if v == [] then [] else c + v;
      && Trimmed(left + ['='] + rest) && left != [] && left[0] != '#' && '=' !in left
      && Blank(if v == [] then c + d else d) && Blank([]) && Trimmed([]) && Trimmed(key)
  {
    assert !IsSpace('=');
    hide IsSpace;
    var left, rest := key + b, if v == [] then [] else c + v;
    var core := left + ['='] + rest;
    assert core[0] == key[0];
    assert core[|core| - 1] == if v == [] then '=' else v[|v| - 1];
  }

  lemma OnlyTrimmedCounts(line: string, core: string)
    requires Trim(line) == core && Trim(core) == core
    ensures ParseLine(line) == ParseLine(core)
  {
    hide Trim, IndexOf;
  }

  /** A line is skipped exactly when it is blank, a comment, or has no "=". */
  lemma SkippedExactlyWhen(line: string)
    ensures ParseLine(line).None? <==> Blank(line) || "#" <= Trim(line) || '=' !in line
  {
    BlankTrims(line);
    TrimKeeps(line, '=');
    hide Trim, Blank, IndexOf;
  }

  lemma ParseTrimmedLine(key: string, v: string)
    requires key != [] && key[0] != '#' && '=' !in key
    requires Trim(key + ['='] + v) == key + ['='] + v
    ensures ParseLine(key + ['='] + v) == Some((Trim(key), Unquote(Trim(v))))
  {
    hide Trim, Unquote;
    var line := key + ['='] + v;
    FirstOccurrence(key, '=', v);
    assert line[..|key|] == key && line[|key| + 1..] == v && line[0] == key[0];
  }

  /** A value that is not wrapped in a pair of equal quotes is kept as it is. */
  lemma BareValueIsKept(key: string, v: string, a: string, b: string, c: string, d: string)
    requires PlainKey(key) && Trimmed(v)
    requires v != [] && v[0] == v[|v| - 1] ==> v[0] != '"' && v[0] != '\''
    requires Blank(a) && Blank(b) && Blank(c) && Blank(d)
    ensures ParseLine(a + key + b + "=" + c + v + d) == Some((key, v))
  {
    LayoutDoesNotMatter(key, v, a, b, c, d);
    hide ParseLine;
  }

  /** A value between two double or two single quotes is what is between them,
      white space, quotes and # signs included. */
  lemma QuotedValueIsInside(key: string, inside: string, q: char, a: string, b: string, c: string, d: string)
    requires PlainKey(key) && (q == '"' || q == '\'')
    requires Blank(a) && Blank(b) && Blank(c) && Blank(d)
    ensures ParseLine(a + key + b + "=" + c + ([q] + inside + [q]) + d) == Some((key, inside))
  {
    QuotedIsTrimmed(inside, q);
    LayoutDoesNotMatter(key, [q] + inside + [q], a, b, c, d);
    hide ParseLine, Trimmed;
    assert ([q] + inside + [q])[1..|inside| + 1] == inside;
  }

  lemma QuotedIsTrimmed(inside: string, q: char)
    requires q == '"' || q == '\''
    ensures Trimmed([q] + inside + [q])
  {
    assert !IsSpace('"') && !IsSpace('\'');
  }

  /** Any line that is not skipped: the name is what stands before the first equals
      sign, the value what stands after it, both trimmed, and the value loses a pair
      of equal quotes around it; a lone quote counts as such a pair. */
  lemma LineWrittenOut(line: string, left: string, right: string)
    requires Trim(line) == left + ['='] + right && '=' !in left && (left == [] || left[0] != '#')
    ensures var v := Trim(right);
      ParseLine(line) == Some((Trim(left),
        if v == "\"" || v == "'" then ""
        else if |v| >= 2 && v[0] == v[|v| - 1] && (v[0] == '"' || v[0] == '\'') then v[1..|v| - 1]
        else v))
  {
    hide Trim;
    var t := Trim(line);
    FirstOccurrence(left, '=', right);
    assert t[..|left|] == left && t[|left| + 1..] == right;
    assert left != [] ==> t[0] == left[0];
  }

  datatype Form = Bare | SingleQuoted | DoubleQuoted

  /** An assignment and the way it is written. */
  datatype Entry = Entry(key: string, value: string, form: Form)

  function Spelled(e: Entry): string {
    match e.form
    case Bare => e.value
    case SingleQuoted => ['\''] + e.value + ['\'']
    case DoubleQuoted => ['"'] + e.value + ['"']
  }

  /** A one-line assignment whose value its form can carry. */
  predicate Writable(e: Entry) {
    && PlainKey(e.key) && '\n' !in e.value
    && (e.form == Bare ==>
          && Trimmed(e.value)
          && (e.value != [] && e.value[0] == e.value[|e.value| - 1] ==> e.value[0] != '"' && e.value[0] != '\''))
  }

  function LineOf(e: Entry): string {
    e.key + "=" + Spelled(e)
  }

  lemma EntryRoundTrip(e: Entry)
    requires Writable(e)
    ensures ParseLine(LineOf(e)) == Some((e.key, e.value)) && '\n' !in LineOf(e)
  {
    hide ParseLine, PlainKey, Trimmed;
    assert Blank([]) && PlainKey(e.key);
    assert '\n' !in e.key by { PlainKeyIsOneLine(e.key); }
    assert [] + e.key + [] + "=" + [] + Spelled(e) + [] == LineOf(e);
    match e.form
    case Bare => BareValueIsKept(e.key, e.value, [], [], [], []);
    case SingleQuoted => QuotedValueIsInside(e.key, e.value, '\'', [], [], [], []);
    case DoubleQuoted => QuotedValueIsInside(e.key, e.value, '"', [], [], [], []);
  }

  lemma PlainKeyIsOneLine(key: string)
    requires PlainKey(key)
    ensures '\n' !in key
  {
  }

  function Render(entries: seq<Entry>): seq<string> {
    seq(|entries|, i requires 0 <= i < |entries| => LineOf(entries[i]))
  }

  function ToVars(entries: seq<Entry>): Vars {
    if entries == [] then map[]
    else ToVars(entries[..|entries| - 1])[entries[|entries| - 1].key := entries[|entries| - 1].value]
  }

  lemma {:induction false} RenderedLinesParse(entries: seq<Entry>)
    requires forall e <- entries :: Writable(e)
    ensures ParseLines(Render(entries)) == ToVars(entries)
    ensures forall l <- Render(entries) :: '\n' !in l
  {
    hide ParseLine, Writable, LineOf;
    if entries != [] {
      var n := |entries| - 1;
      forall e <- entries[..n] ensures e in entries {}
      assert entries[n] in entries;
      RenderedLinesParse(entries[..n]);
      EntryRoundTrip(entries[n]);
      assert Render(entries) == Render(entries[..n]) + [LineOf(entries[n])];
    }
  }

  /** A whole file of assignments, bare or quoted either way, reads back as what was
      written, a later assignment replacing an earlier one. */
  lemma FileRoundTrip(entries: seq<Entry>)
    requires entries != [] && forall e <- entries :: Writable(e)
    ensures ParseEnv(Join(Render(entries), "\n")) == ToVars(entries)
  {
    hide Writable, LineOf, ParseLine;
    RenderedLinesParse(entries);
    SplitJoin(Render(entries), '\n');
  }

  // ----------------------------------------------------------- parameter store

  datatype Parameter = Parameter(name: Option<string>, value: Option<string>)

  /** Position of the first occurrence of a string, or -1. */
  function Find(s: string, what: string): (i: int)
    ensures i == -1 || 0 <= i <= |s| - |what|
    ensures i >= 0 ==> s[i..i + |what|] == what
    decreases |s|
  {
    if |s| < |what| then -1
    else if s[..|what|] == what then 0
    else if s == [] then -1
    else
      var i := Find(s[1..], what);
      if i == -1 then -1 else SliceOfTail(s, i, |what|); i + 1
  }

  lemma SliceOfTail(s: string, i: nat, n: nat)
    requires i + n < |s|
    ensures s[1..][i..i + n] == s[i + 1..i + 1 + n]
  {
  }

  /** replace(what, ""): the first occurrence only, wherever it is. */
  function RemoveFirst(s: string, what: string): string {
    var i := Find(s, what);
    if i == -1 then s else s[..i] + s[i + |what|..]
  }

  function KeyOf(name: string, prefix: string): string {
    var key := RemoveFirst(name, prefix);
    if key != [] && key[0] == '/' then key[1..] else key
  }

  predicate Usable(p: Parameter) {
    p.name.Some? && p.name.value != [] && p.value.Some?
  }

  function Collect(parameters: seq<Parameter>, prefix: string): Vars {
    if parameters == [] then map[]
    else
      var p := parameters[|parameters| - 1];
      var vars := Collect(parameters[..|parameters| - 1], prefix);
      if Usable(p) then vars[KeyOf(p.name.value, prefix) := p.value.value] else vars
  }

  /** A key is collected, with a value, exactly when some parameter with a non-empty
      name and a value gives it, and no later one gives the same key. */
  lemma {:induction false} CollectedExactly(parameters: seq<Parameter>, prefix: string, key: string, value: string)
    ensures key in Collect(parameters, prefix) && Collect(parameters, prefix)[key] == value
      <==> exists i :: GivenAt(parameters, prefix, i, key, value)
  {
    if parameters != [] {
      var before := parameters[..|parameters| - 1];
      CollectedExactly(before, prefix, key, value);
      hide Collect, KeyOf, GivenAt;
      CollectLast(parameters, prefix);
      if Gives(parameters[|parameters| - 1], prefix, key) {
        LastGives(parameters, prefix, key, value);
      } else {
        LastIsSilent(parameters, prefix, key, value);
      }
    }
  }

  lemma LastGives(parameters: seq<Parameter>, prefix: string, key: string, value: string)
    requires parameters != [] && Gives(parameters[|parameters| - 1], prefix, key)
    ensures (exists i :: GivenAt(parameters, prefix, i, key, value))
       <==> parameters[|parameters| - 1].value == Some(value)
  {
    hide Gives;
    var n := |parameters| - 1;
    if parameters[n].value == Some(value) {
      assert GivenAt(parameters, prefix, n, key, value);
    }
  }

  lemma LastIsSilent(parameters: seq<Parameter>, prefix: string, key: string, value: string)
    requires parameters != [] && !Gives(parameters[|parameters| - 1], prefix, key)
    ensures var before := parameters[..|parameters| - 1];
      (exists i :: GivenAt(parameters, prefix, i, key, value)) <==> (exists i :: GivenAt(before, prefix, i, key, value))
  {
    hide Gives;
    var n := |parameters| - 1;
    var before := parameters[..n];
    assert forall j | 0 <= j < n :: before[j] == parameters[j];
    forall i ensures GivenAt(before, prefix, i, key, value) <==> GivenAt(parameters, prefix, i, key, value) {}
  }

  predicate Gives(p: Parameter, prefix: string, key: string) {
    p.name.Some? && p.name.value != "" && p.value.Some? && KeyOf(p.name.value, prefix) == key
  }

  predicate GivenAt(parameters: seq<Parameter>, prefix: string, i: int, key: string, value: string) {
    && 0 <= i < |parameters| && Gives(parameters[i], prefix, key) && parameters[i].value == Some(value)
    && forall j | i < j < |parameters| :: !Gives(parameters[j], prefix, key)
  }

  lemma CollectLast(parameters: seq<Parameter>, prefix: string)
    requires parameters != []
    ensures var p, vars := parameters[|parameters| - 1], Collect(parameters[..|parameters| - 1], prefix);
      Collect(parameters, prefix) == if Usable(p) then vars[KeyOf(p.name.value, prefix) := p.value.value] else vars
  {
    hide KeyOf;
  }

  function Flatten<T>(pages: seq<seq<T>>): seq<T> {
    if pages == [] then [] else Flatten(pages[..|pages| - 1]) + pages[|pages| - 1]
  }

  /** The paging loop: pages until the one without a continuation token. */
  method FetchSsmParameters(pages: seq<seq<Parameter>>, prefix: string) returns (result: Vars)
    requires pages != []
    ensures result == Collect(Flatten(pages), prefix)
  {
    hide Collect, Flatten, KeyOf;
    result := map[];
    NothingCollected(prefix);
    var n := 0;
    while n < |pages|
      invariant 0 <= n <= |pages|
      invariant result == Collect(Flatten(pages[..n]), prefix)
    {
      var page := pages[n];
      ghost var before := Flatten(pages[..n]);
      assert before + page[..0] == before;
      var i := 0;
      while i < |page|
        invariant 0 <= i <= |page|
        invariant result == Collect(before + page[..i], prefix)
      {
        var p := page[i];
        NextParameter(before, page, i, prefix);
        i := i + 1;
        if p.name.None? || p.name.value == [] || p.value.None? { continue; }
        var key := KeyOf(p.name.value, prefix);
        result := result[key := p.value.value];
      }
      assert page[..i] == page;
      NextPage(pages, n);
      n := n + 1;
    }
    assert pages[..n] == pages;
  }

  lemma NothingCollected(prefix: string)
    ensures Collect(Flatten([]), prefix) == map[]
  {
  }

  lemma NextParameter(before: seq<Parameter>, page: seq<Parameter>, i: nat, prefix: string)
    requires i < |page|
    ensures var p, vars := page[i], Collect(before + page[..i], prefix);
      Collect(before + page[..i + 1], prefix) ==
        if Usable(p) then vars[KeyOf(p.name.value, prefix) := p.value.value] else vars
  {
    hide KeyOf;
    var all := before + page[..i + 1];
    assert all[..|all| - 1] == before + page[..i] && all[|all| - 1] == page[i];
  }

  lemma NextPage<T>(pages: seq<seq<T>>, n: nat)
    requires n < |pages|
    ensures Flatten(pages[..n + 1]) == Flatten(pages[..n]) + pages[n]
  {
    assert pages[..n + 1][..n] == pages[..n];
  }

  /** Where the service cuts its pages makes no difference. */
  lemma {:induction false} PageBoundariesDoNotMatter(pages: seq<seq<Parameter>>, k: nat, i: nat, prefix: string)
    requires k < |pages| && i <= |pages[k]|
    ensures Collect(Flatten(pages), prefix)
         == Collect(Flatten(pages[..k] + [pages[k][..i], pages[k][i..]] + pages[k + 1..]), prefix)
  {
    var head, tail, page := pages[..k], pages[k + 1..], pages[k];
    assert pages == head + [page] + tail;
    FlattenConcat(head + [page], tail);
    FlattenConcat(head, [page]);
    FlattenConcat(head + [page[..i], page[i..]], tail);
    FlattenConcat(head, [page[..i], page[i..]]);
    FlattenPair(page[..i], page[i..]);
    FlattenOne(page);
    assert page[..i] + page[i..] == page;
  }

  lemma FlattenOne<T>(a: seq<T>)
    ensures Flatten([a]) == a
  {
    assert [a][..0] == [];
  }

  lemma FlattenPair<T>(a: seq<T>, b: seq<T>)
    ensures Flatten([a, b]) == a + b
  {
    assert [a, b] == [a] + [b];
    FlattenConcat([a], [b]);
    FlattenOne(a);
    FlattenOne(b);
  }

  lemma {:induction false} FlattenConcat<T>(a: seq<seq<T>>, b: seq<seq<T>>)
    ensures Flatten(a + b) == Flatten(a) + Flatten(b)
  {
    if b == [] {
      assert a + b == a;
    } else {
      var n, ab := |b| - 1, a + b;
      FlattenConcat(a, b[..n]);
      assert ab[..|ab| - 1] == a + b[..n] && ab[|ab| - 1] == b[n];
      assert Flatten(ab) == Flatten(a + b[..n]) + b[n];
    }
  }

  lemma FindAtFront(s: string, what: string)
    ensures Find(what + s, what) == 0
  {
    assert (what + s)[..|what|] == what;
  }

  /** A parameter under the prefix is known by the rest of its path. */
  lemma KeyUnderPrefix(prefix: string, rest: string)
    ensures KeyOf(prefix + rest, prefix) == if rest != [] && rest[0] == '/' then rest[1..] else rest
  {
    FindAtFront(rest, prefix);
    assert (prefix + rest)[0..0] + (prefix + rest)[|prefix|..] == rest;
  }

  /** what stands at position i of s. */
  predicate Stands(s: string, what: string, i: int) {
    0 <= i <= |s| - |what| && s[i..i + |what|] == what
  }

  /** Find is the first position where the string stands, or -1. */
  lemma {:induction false} FindIsFirst(s: string, what: string)
    ensures forall i | Stands(s, what, i) :: 0 <= Find(s, what) <= i
    ensures Find(s, what) >= 0 ==> Stands(s, what, Find(s, what))
    decreases |s|
  {
    if |s| >= |what| && s[..|what|] != what && s != [] {
      FindIsFirst(s[1..], what);
      forall i | Stands(s, what, i) ensures i > 0 && Stands(s[1..], what, i - 1) {
        assert s[0..|what|] == s[..|what|];
        if i > 0 { assert s[1..][i - 1..i - 1 + |what|] == s[i..i + |what|]; }
      }
    }
  }

  /** Of any name, the first occurrence of the prefix goes, wherever it is, and then
      one leading slash. */
  lemma KeyLosesFirstPrefix(a: string, prefix: string, rest: string)
    requires forall i | 0 <= i < |a| :: !Stands(a + prefix + rest, prefix, i)
    ensures KeyOf(a + prefix + rest, prefix) ==
      if a + rest != [] && (a + rest)[0] == '/' then (a + rest)[1..] else a + rest
  {
    hide Find, Stands;
    StandsBetween(a, prefix, rest);
    FindIsFirst(a + prefix + rest, prefix);
  }

  lemma StandsBetween(a: string, what: string, rest: string)
    ensures var s := a + what + rest;
      Stands(s, what, |a|) && s[..|a|] + s[|a| + |what|..] == a + rest
  {
  }

  lemma KeyWithoutPrefix(name: string, prefix: string)
    requires forall i :: !Stands(name, prefix, i)
    ensures KeyOf(name, prefix) == if name != [] && name[0] == '/' then name[1..] else name
  {
    FindIsFirst(name, prefix);
    hide Find;
  }

  // --------------------------------------------------------------------- merge

  datatype Result<+T> = Ok(value: T) | Err(message: string)

  const STAGES: seq<string> := ["local", "development", "staging", "production"]

  /** What the cloud answers: None is an exception. */
  datatype Cloud = Cloud(ssm: Option<seq<seq<Parameter>>>, secret: Option<Vars>)

  datatype LoaderOptions = LoaderOptions(stage: Option<string>, ssmPrefix: Option<string>, secretName: Option<string>)

  function Either(a: Option<string>, b: Option<string>): Option<string> {
    if a.Some? then a else b
  }

  function Get(vars: Vars, key: string): Option<string> {
    if key in vars then Some(vars[key]) else None
  }

  function StageOf(options: LoaderOptions, env: Vars): string {
    var chosen := Either(options.stage, Get(env, "APP_STAGE"));
    if chosen.Some? then chosen.value else "local"
  }

  /** A prefix or a secret name is used unless it is missing or empty. */
  predicate Set(v: Option<string>) {
    v.Some? && v.value != []
  }

  method LoadConfig(options: LoaderOptions, env: Vars, file: Option<string>, cloud: Cloud)
    returns (result: Result<Vars>)
    requires cloud.ssm.Some? ==> cloud.ssm.value != []
    ensures result == Load(options, env, file, cloud)
  {
    var stage := StageOf(options, env);
    if stage !in STAGES { return Err("APP_STAGE"); }
    var ssmPrefix := Either(options.ssmPrefix, Get(env, "CONFIG_SSM_PREFIX"));
    var secretName := Either(options.secretName, Get(env, "APP_CONFIG_SECRET_ID"));
    var fileVars, ssmVars, secretVars := map[], map[], map[];
    if stage == "local" { fileVars := ParseEnvFile(file); }
    if stage != "local" && Set(ssmPrefix) {
      if cloud.ssm.None? { return Err("SSM"); }
      ssmVars := FetchSsmParameters(cloud.ssm.value, ssmPrefix.value);
    }
    if stage != "local" && Set(secretName) {
      if cloud.secret.None? { return Err("Secrets Manager"); }
      secretVars := cloud.secret.value;
    }
    result := Ok(fileVars + ssmVars + secretVars + env + map["APP_STAGE" := stage]);
  }

  function FileLayer(options: LoaderOptions, env: Vars, file: Option<string>): Vars {
    if StageOf(options, env) == "local" && file.Some? then ParseEnv(file.value) else map[]
  }

  function SsmLayer(options: LoaderOptions, env: Vars, cloud: Cloud): Option<Vars> {
    var prefix := Either(options.ssmPrefix, Get(env, "CONFIG_SSM_PREFIX"));
    if StageOf(options, env) == "local" || !Set(prefix) then Some(map[])
    else if cloud.ssm.None? then None
    else Some(Collect(Flatten(cloud.ssm.value), prefix.value))
  }

  function SecretLayer(options: LoaderOptions, env: Vars, cloud: Cloud): Option<Vars> {
    var name := Either(options.secretName, Get(env, "APP_CONFIG_SECRET_ID"));
    if StageOf(options, env) == "local" || !Set(name) then Some(map[]) else cloud.secret
  }

  function Load(options: LoaderOptions, env: Vars, file: Option<string>, cloud: Cloud): Result<Vars> {
    var stage := StageOf(options, env);
    var ssm, secret := SsmLayer(options, env, cloud), SecretLayer(options, env, cloud);
    if stage !in STAGES then Err("APP_STAGE")
    else if ssm.None? then Err("SSM")
    else if secret.None? then Err("Secrets Manager")
    else Ok(FileLayer(options, env, file) + ssm.value + secret.value + env + map["APP_STAGE" := stage])
  }

  /** The whole load, from the options, the environment, the file and the cloud. */
  lemma LoadWrittenOut(options: LoaderOptions, env: Vars, file: Option<string>, cloud: Cloud)
    ensures
      var stage := if options.stage.Some? then options.stage.value
        else if "APP_STAGE" in env then env["APP_STAGE"] else "local";
      var prefix := if options.ssmPrefix.Some? then options.ssmPrefix.value
        else if "CONFIG_SSM_PREFIX" in env then env["CONFIG_SSM_PREFIX"] else "";
      var name := if options.secretName.Some? then options.secretName.value
        else if "APP_CONFIG_SECRET_ID" in env then env["APP_CONFIG_SECRET_ID"] else "";
      var result := Load(options, env, file, cloud);
      if stage != "local" && stage != "development" && stage != "staging" && stage != "production" then
        result == Err("APP_STAGE")
      else if stage == "local" then
        result == Ok((if file.Some? then ParseEnv(file.value) else map[]) + env + map["APP_STAGE" := stage])
      else if prefix != "" && cloud.ssm.None? then result == Err("SSM")
      else if name != "" && cloud.secret.None? then result == Err("Secrets Manager")
      else
        result == Ok((if prefix != "" then Collect(Flatten(cloud.ssm.value), prefix) else map[])
                     + (if name != "" then cloud.secret.value else map[])
                     + env + map["APP_STAGE" := stage])
  {
    hide Collect, Flatten, ParseEnv, FileLayer, SsmLayer, SecretLayer;
    LayersWrittenOut(options, env, file, cloud);
    var file := FileLayer(options, env, file);
    assert file + map[] + map[] == file;
    forall ssm: Vars ensures map[] + ssm == ssm {}
  }

  /** When each layer is read, and from what. */
  lemma LayersWrittenOut(options: LoaderOptions, env: Vars, file: Option<string>, cloud: Cloud)
    ensures
      var stage := if options.stage.Some? then options.stage.value
        else if "APP_STAGE" in env then env["APP_STAGE"] else "local";
      var prefix := if options.ssmPrefix.Some? then options.ssmPrefix.value
        else if "CONFIG_SSM_PREFIX" in env then env["CONFIG_SSM_PREFIX"] else "";
      var name := if options.secretName.Some? then options.secretName.value
        else if "APP_CONFIG_SECRET_ID" in env then env["APP_CONFIG_SECRET_ID"] else "";
      && StageOf(options, env) == stage
      && FileLayer(options, env, file) == (if stage == "local" && file.Some? then ParseEnv(file.value) else map[])
      && SsmLayer(options, env, cloud) == (
           if stage == "local" || prefix == "" then Some(map[])
           else if cloud.ssm.None? then None else Some(Collect(Flatten(cloud.ssm.value), prefix)))
      && SecretLayer(options, env, cloud) == (if stage == "local" || name == "" then Some(map[]) else cloud.secret)
  {
    hide Collect, Flatten, ParseEnv;
  }

  /** The first layer, from the strongest, that defines the key. */
  function Strongest(layers: seq<Vars>, key: string): Option<string> {
    if layers == [] then None
    else if key in layers[0] then Some(layers[0][key])
    else Strongest(layers[1..], key)
  }

  /** Every lookup is answered by the strongest layer that defines the key: the
      process environment, then secrets, then parameters, then the file; only
      APP_STAGE is fixed by the stage. The file counts only locally, and the
      cloud only elsewhere. */
  lemma StrongestLayerWins(options: LoaderOptions, env: Vars, file: Option<string>, cloud: Cloud, key: string)
    requires Load(options, env, file, cloud).Ok?
    ensures var merged, stage := Load(options, env, file, cloud).value, StageOf(options, env);
      var ssm, secret := SsmLayer(options, env, cloud).value, SecretLayer(options, env, cloud).value;
      && Get(merged, "APP_STAGE") == Some(stage) && stage in STAGES
      && (key != "APP_STAGE" ==>
            Get(merged, key) == Strongest([env, secret, ssm, FileLayer(options, env, file)], key))
      && (stage != "local" ==> FileLayer(options, env, file) == map[])
      && (stage == "local" ==> ssm == map[] && secret == map[])
  {
    var ssm, secret := SsmLayer(options, env, cloud).value, SecretLayer(options, env, cloud).value;
    StrongestOfFour(env, secret, ssm, FileLayer(options, env, file), key);
  }

  lemma StrongestOfFour(a: Vars, b: Vars, c: Vars, d: Vars, key: string)
    ensures Strongest([a, b, c, d], key)
         == if key in a then Some(a[key]) else if key in b then Some(b[key])
            else if key in c then Some(c[key]) else if key in d then Some(d[key]) else None
  {
    assert [a, b, c, d] == [a] + [b, c, d] && [b, c, d] == [b] + [c, d] && [c, d] == [c] + [d] && [d] == [d] + [];
    StrongestStep(a, [b, c, d], key);
    StrongestStep(b, [c, d], key);
    StrongestStep(c, [d], key);
    StrongestStep(d, [], key);
  }

  lemma StrongestStep(a: Vars, rest: seq<Vars>, key: string)
    ensures Strongest([a] + rest, key) == if key in a then Some(a[key]) else Strongest(rest, key)
  {
    assert ([a] + rest)[1..] == rest;
  }
}
