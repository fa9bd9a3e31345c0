/** The environment schema: strings are parsed into typed values, written back as
    strings, and parsed again. What the language's runtime decides (numerals that
    are not plain decimals, what is a URL, the host of a URL) is a parameter. */
module EnvironmentSchema {
  import opened Options
  import opened Text
  import Loader = ConfigLoader
  import Cookie = AuthRefreshCookie

  type Vars = Loader.Vars

  // ---------------------------------------------------------------- values

  datatype Value = Str(text: string) | Num(number: real) | Bool(flag: bool) | List(items: seq<string>)

  /** What validation returns; a field that is undefined is not a key. */
  type Env = map<string, Value>

  /** Number and String on anything but plain decimals, and the URL parser. */
  datatype Platform = Platform(
    number: string -> Option<real>,
    text: real -> string,
    isUrl: string -> bool,
    hostname: string -> string)

  const MAX_SAFE := 9007199254740991

  predicate IsWhole(x: real) {
    x == x.Floor as real
  }

  /** Number(s): None is NaN or an infinity. */
  function ReadNumber(s: string, js: Platform): Option<real> {
    var t := Trim(s);
    if t == [] then Some(0.0)
    else if IsNumeral(t) then Some(ReadNat(t) as real)
    else js.number(t)
  }

  function ShowNumber(x: real, js: Platform): string {
    if IsWhole(x) && 0.0 <= x <= MAX_SAFE as real then PrintNat(x.Floor) else js.text(x)
  }

  /** String(value). */
  function Show(v: Value, js: Platform): string {
    match v
    case Str(s) => s
    case Num(x) => ShowNumber(x, js)
    case Bool(b) => if b then "true" else "false"
    case List(items) => Join(items, ",")
  }

  // ---------------------------------------------------------------- fields

  datatype Rule = AtLeast(n: nat) | NameRule | PathRule

  datatype Kind =
    | Choice(options: set<string>, fallback: Option<string>)
    | Flag
    | Origins
    | NonEmpty
    | Whole(min: int, max: int, start: int)
    | Ratio(literal: string)
    | Line(rule: Rule, trim: bool, initial: string)
    | Extra

  datatype Parsed = Fine(value: Option<Value>) | Bad

  /** Length in UTF-16 code units. */
  function Units(s: string): (n: nat)
    ensures |s| <= n && (n == 0 <==> s == [])
  {
    if s == [] then 0 else (if s[0] >= '\U{10000}' then 2 else 1) + Units(s[1..])
  }

  predicate NameChar(c: char) {
    'A' <= c <= 'Z' || 'a' <= c <= 'z' || '0' <= c <= '9' || c == '_' || c == '-'
  }

  predicate Obeys(rule: Rule, s: string) {
    match rule
    case AtLeast(n) => Units(s) >= n
    case NameRule => s != [] && forall c <- s :: NameChar(c)
    case PathRule => s != [] && s[0] == '/'
  }

  /** Trim every piece and keep what is left of the non-blank ones. */
  function Clean(parts: seq<string>): seq<string> {
    if parts == [] then []
    else
      var t := Trim(parts[0]);
      (if t == [] then [] else [t]) + Clean(parts[1..])
  }

  predicate AllUrls(items: seq<string>, js: Platform) {
    items != [] && forall o <- items :: js.isUrl(o)
  }

  const LOCAL_ORIGIN := "http://localhost:4200"

  /** One field; None is a variable that is not set. */
  function Parse(kind: Kind, raw: Option<string>, js: Platform): Parsed {
    match raw
    case None => Fine(Default(kind, js))
    case Some(s) => ParseSet(kind, s, js)
  }

  function Default(kind: Kind, js: Platform): Option<Value> {
    match kind
    case Choice(_, d) => if d.Some? then Some(Str(d.value)) else None
    case Flag => None
    case Origins => Some(List([LOCAL_ORIGIN]))
    case NonEmpty => None
    case Whole(_, _, d) => Some(Num(d as real))
    case Ratio(literal) => var x := js.number(literal); if x.Some? then Some(Num(x.value)) else None
    case Line(_, _, d) => Some(Str(d))
    case Extra => None
  }

  function ParseSet(kind: Kind, s: string, js: Platform): Parsed {
    match kind
    case Choice(options, _) => if s in options then Fine(Some(Str(s))) else Bad
    case Flag => if s == "true" then Fine(Some(Bool(true))) else if s == "false" then Fine(Some(Bool(false))) else Bad
    case Origins => var items := Clean(Split(s, ',')); if AllUrls(items, js) then Fine(Some(List(items))) else Bad
    case NonEmpty => if s == [] then Fine(None) else Fine(Some(Str(s)))
    case Whole(min, max, _) =>
      var x := ReadNumber(s, js);
      if x.Some? && IsWhole(x.value) && min as real <= x.value <= max as real then Fine(Some(Num(x.value))) else Bad
    case Ratio(_) =>
      var x := ReadNumber(s, js);
      if x.Some? && 0.0 <= x.value <= 1.0 then Fine(Some(Num(x.value))) else Bad
    case Line(rule, trim, _) =>
      var t := if trim then Trim(s) else s;
      if Obeys(rule, t) then Fine(Some(Str(t))) else Bad
    case Extra => Fine(Some(Str(s)))
  }

  // -------------------------------------------------------------- the schema

  const DEFAULT_SECRET := "local-development-secret-change-me-please"

  const NAMES: seq<string> := [
    "APP_STAGE", "NODE_ENV", "PORT", "API_DOCS_ENABLED", "CORS_ALLOWED_ORIGINS", "LOG_LEVEL",
    "APP_CONFIG_SECRET_ID", "CONFIG_SSM_PREFIX", "DATABASE_URL", "DATABASE_SECRET_ARN",
    "DATABASE_POOL_MAX", "DATABASE_IDLE_TIMEOUT_MS", "TRUSTED_PROXY_HOPS", "JWT_SECRET",
    "JWT_ACCESS_TOKEN_TTL", "JWT_REFRESH_TOKEN_TTL", "AUTH_REFRESH_COOKIE_NAME",
    "AUTH_REFRESH_COOKIE_PATH", "GOOGLE_CLIENT_ID", "BEDROCK_MODEL_ID", "BEDROCK_MAX_TOKENS",
    "BEDROCK_TEMPERATURE", "BEDROCK_TOP_P", "AWS_REGION", "AWS_DEFAULT_REGION", "AWS_ENDPOINT_URL",
    "AWS_ACCESS_KEY_ID", "AWS_SECRET_ACCESS_KEY", "UPLOAD_BUCKET_NAME", "UPLOAD_KEY_PREFIX",
    "UPLOAD_PRESIGNED_URL_EXPIRY_SECONDS", "SQS_QUEUE_URL", "WORKER_WAIT_TIME_SECONDS",
    "WORKER_VISIBILITY_TIMEOUT_SECONDS", "WORKER_MAX_MESSAGES"]

  const KEYS: set<string> := set k | k in NAMES

  /** Any name that is not a field is passed through. */
  function KindOf(key: string): Kind {
    match key
    case "APP_STAGE" => Choice({"local", "development", "staging", "production"}, Some("local"))
    case "NODE_ENV" => Choice({"development", "test", "production"}, Some("development"))
    case "LOG_LEVEL" => Choice({"fatal", "error", "warn", "info", "debug", "trace", "silent"}, None)
    case "API_DOCS_ENABLED" => Flag
    case "CORS_ALLOWED_ORIGINS" => Origins
    case "PORT" => Whole(1, 65535, 3000)
    case "DATABASE_POOL_MAX" => Whole(1, 100, 10)
    case "DATABASE_IDLE_TIMEOUT_MS" => Whole(1, MAX_SAFE, 30000)
    case "TRUSTED_PROXY_HOPS" => Whole(0, 10, 1)
    case "BEDROCK_MAX_TOKENS" => Whole(1, 4096, 1024)
    case "UPLOAD_PRESIGNED_URL_EXPIRY_SECONDS" => Whole(1, 3600, 900)
    case "WORKER_WAIT_TIME_SECONDS" => Whole(1, 20, 20)
    case "WORKER_VISIBILITY_TIMEOUT_SECONDS" => Whole(30, 43200, 120)
    case "WORKER_MAX_MESSAGES" => Whole(1, 10, 10)
    case "BEDROCK_TEMPERATURE" => Ratio("0.2")
    case "BEDROCK_TOP_P" => Ratio("0.9")
    case "JWT_SECRET" => Line(AtLeast(32), false, DEFAULT_SECRET)
    case "JWT_ACCESS_TOKEN_TTL" => Line(AtLeast(1), false, "15m")
    case "JWT_REFRESH_TOKEN_TTL" => Line(AtLeast(1), false, "7d")
    case "AUTH_REFRESH_COOKIE_NAME" => Line(NameRule, false, "rimac_refresh")
    case "AUTH_REFRESH_COOKIE_PATH" => Line(PathRule, false, "/auth")
    case "AWS_REGION" => Line(AtLeast(1), false, "us-east-1")
    case "UPLOAD_BUCKET_NAME" => Line(AtLeast(3), false, "bus-impl-local-uploads")
    case "UPLOAD_KEY_PREFIX" => Line(AtLeast(1), true, "uploads")
    case "APP_CONFIG_SECRET_ID" => NonEmpty
    case "CONFIG_SSM_PREFIX" => NonEmpty
    case "DATABASE_URL" => NonEmpty
    case "DATABASE_SECRET_ARN" => NonEmpty
    case "GOOGLE_CLIENT_ID" => NonEmpty
    case "BEDROCK_MODEL_ID" => NonEmpty
    case "AWS_DEFAULT_REGION" => NonEmpty
    case "AWS_ENDPOINT_URL" => NonEmpty
    case "AWS_ACCESS_KEY_ID" => NonEmpty
    case "AWS_SECRET_ACCESS_KEY" => NonEmpty
    case "SQS_QUEUE_URL" => NonEmpty
    case _ => Extra
  }

  predicate Truthy(e: Env, key: string) {
    key in e && e[key] != Str("")
  }

  predicate ProductionLike(e: Env) {
    "APP_STAGE" in e && e["APP_STAGE"] in {Str("staging"), Str("production")}
  }

  predicate LocalOrigin(e: Env, js: Platform) {
    && "CORS_ALLOWED_ORIGINS" in e && e["CORS_ALLOWED_ORIGINS"].List?
    && exists o <- e["CORS_ALLOWED_ORIGINS"].items :: o == "*" || js.hostname(o) == "localhost"
  }

  /** The rules across fields. */
  predicate RulesHold(e: Env, js: Platform) {
    && Truthy(e, "AWS_ACCESS_KEY_ID") == Truthy(e, "AWS_SECRET_ACCESS_KEY")
    && (ProductionLike(e) ==>
          && !LocalOrigin(e, js)
          && !("JWT_SECRET" in e && e["JWT_SECRET"] == Str(DEFAULT_SECRET))
          && !(Truthy(e, "AWS_ACCESS_KEY_ID") || Truthy(e, "AWS_SECRET_ACCESS_KEY"))
          && (Truthy(e, "DATABASE_URL") || Truthy(e, "DATABASE_SECRET_ARN")))
  }

  function Field(config: Vars, key: string, js: Platform): Parsed {
    Parse(KindOf(key), Loader.Get(config, key), js)
  }

  predicate FieldsParse(config: Vars, js: Platform) {
    forall k <- KEYS + config.Keys :: Field(config, k, js).Fine?
  }

  function Fields(config: Vars, js: Platform): Env
    requires FieldsParse(config, js)
  {
    map k | k in KEYS + config.Keys && Field(config, k, js).value.Some? :: Field(config, k, js).value.value
  }

  /** None is the thrown error. */
  function Validate(config: Vars, js: Platform): Option<Env> {
    if FieldsParse(config, js) && RulesHold(Fields(config, js), js) then Some(Fields(config, js)) else None
  }

  function WriteBack(env: Vars, e: Env, js: Platform): Vars {
    env + map k | k in e :: Show(e[k], js)
  }

  // ------------------------------------------------- one field comes back

  /** What a number between 0 and 1 needs from the runtime: String prints it so
      that Number reads it back (section 6.1.6.1.20 of ECMA-262). */
  ghost predicate Prints(js: Platform, x: real) {
    var t := js.text(x);
    Trimmed(t) && t != [] && !IsNumeral(t) && js.number(t) == Some(x)
  }

  ghost predicate ReadsInside(js: Platform, literal: string) {
    js.number(literal).Some? && 0.0 < js.number(literal).value < 1.0
  }

  /** The runtime keeps its word, and accepts the built-in origin. */
  ghost predicate Faithful(js: Platform) {
    && (forall s :: ReadsInside(js, s) ==> Prints(js, js.number(s).value))
    && ReadsInside(js, "0.2") && ReadsInside(js, "0.9")
    && js.isUrl(LOCAL_ORIGIN)
  }

  /** What the type of a field promises to the program. */
  ghost predicate HasType(kind: Kind, v: Value, js: Platform) {
    match kind
    case Choice(options, _) => v.Str? && v.text in options
    case Flag => v.Bool?
    case Origins => v.List? && AllUrls(v.items, js) && forall o <- v.items :: o != [] && Trimmed(o) && ',' !in o
    case NonEmpty => v.Str? && v.text != []
    case Whole(min, max, _) => v.Num? && IsWhole(v.number) && min <= v.number.Floor <= max
    case Ratio(_) => v.Num? && (v.number == 0.0 || v.number == 1.0 || (0.0 < v.number < 1.0 && Prints(js, v.number)))
    case Line(rule, trim, _) => v.Str? && Obeys(rule, v.text) && (trim ==> Trimmed(v.text))
    case Extra => v.Str?
  }

  /** A field whose default, if it has one, is of the right type. */
  ghost predicate Sound(kind: Kind, js: Platform) {
    && (Default(kind, js).Some? ==> HasType(kind, Default(kind, js).value, js))
    && (kind.Whole? ==> 0 <= kind.min && kind.max <= MAX_SAFE)
  }

  /** Parsing yields values of the field's type. */
  lemma ParseIsTyped(kind: Kind, raw: Option<string>, js: Platform)
    requires Sound(kind, js) && Faithful(js)
    ensures var p := Parse(kind, raw, js); p.Fine? && p.value.Some? ==> HasType(kind, p.value.value, js)
  {
    hide ParseSet, HasType;
    if raw.Some? { ParseSetIsTyped(kind, raw.value, js); }
  }

  lemma ParseSetIsTyped(kind: Kind, s: string, js: Platform)
    requires Faithful(js)
    ensures var p := ParseSet(kind, s, js); p.Fine? && p.value.Some? ==> HasType(kind, p.value.value, js)
  {
    hide Trim, Trimmed, Obeys, Clean, Split, AllUrls, ReadNumber, Prints, Faithful;
    match kind
    case Origins => PiecesAreTyped(s);
    case Ratio(_) => RatioIsTyped(s, js);
    case Line(_, _, _) => TrimTrims(s);
    case _ =>
  }

  lemma PiecesAreTyped(s: string)
    ensures forall o <- Clean(Split(s, ',')) :: o != [] && Trimmed(o) && ',' !in o
  {
    SplitPartsLackSep(s, ',');
    CleanIsTyped(Split(s, ','));
  }

  lemma {:induction false} CleanIsTyped(parts: seq<string>)
    requires forall p <- parts :: ',' !in p
    ensures forall o <- Clean(parts) :: o != [] && Trimmed(o) && ',' !in o
  {
    hide Trim, Trimmed;
    if parts != [] {
      assert parts[0] in parts;
      forall p <- parts[1..] ensures p in parts {}
      CleanIsTyped(parts[1..]);
      TrimIsPart(parts[0], ',');
    }
  }

  lemma TrimIsPart(s: string, c: char)
    requires c !in s
    ensures Trimmed(Trim(s)) && c !in Trim(s)
  {
    TrimTrims(s);
    hide IsSpace;
    assert forall d <- TrimStart(s) :: d in s;
    assert forall d <- Trim(s) :: d in TrimStart(s);
  }

  lemma RatioIsTyped(s: string, js: Platform)
    requires Faithful(js)
    ensures var x := ReadNumber(s, js);
      x.Some? && 0.0 <= x.value <= 1.0 ==>
        x.value == 0.0 || x.value == 1.0 || (0.0 < x.value < 1.0 && Prints(js, x.value))
  {
    hide Prints, Trim;
    var t := Trim(s);
    if t != [] && !IsNumeral(t) && ReadsInside(js, t) {
      assert Prints(js, js.number(t).value);
    }
  }

  /** Every value of a field's type, however it was obtained, is parsed back from
      the string it is written as. */
  lemma ShowThenParse(kind: Kind, v: Value, js: Platform)
    requires Sound(kind, js) && HasType(kind, v, js)
    ensures Parse(kind, Some(Show(v, js)), js) == Fine(Some(v))
  {
    hide Trim, Trimmed, Obeys, Clean, Split, Join, ReadNumber, ShowNumber, Prints;
    match kind
    case Origins => ListRoundTrip(v.items);
    case Whole(_, _, _) => WholeRoundTrip(v.number, js);
    case Ratio(_) => RatioRoundTrip(v.number, js);
    case Line(_, _, _) => TrimTrims(v.text);
    case _ =>
  }

  lemma ListRoundTrip(items: seq<string>)
    requires items != [] && forall o <- items :: o != [] && Trimmed(o) && ',' !in o
    ensures Clean(Split(Join(items, ","), ',')) == items
  {
    SplitJoin(items, ',');
    CleanKeeps(items);
  }

  lemma {:induction false} CleanKeeps(items: seq<string>)
    requires forall o <- items :: o != [] && Trimmed(o)
    ensures Clean(items) == items
  {
    if items != [] {
      assert items[0] in items;
      TrimTrims(items[0]);
      forall o <- items[1..] ensures o in items {}
      CleanKeeps(items[1..]);
    }
  }

  lemma WholeRoundTrip(x: real, js: Platform)
    requires IsWhole(x) && 0.0 <= x <= MAX_SAFE as real
    ensures ReadNumber(ShowNumber(x, js), js) == Some(x)
  {
    hide Trim, PrintNat, ReadNat;
    ReadPrint(x.Floor);
    TrimTrims(PrintNat(x.Floor));
  }

  lemma RatioRoundTrip(x: real, js: Platform)
    requires x == 0.0 || x == 1.0 || (0.0 < x < 1.0 && Prints(js, x))
    ensures ReadNumber(ShowNumber(x, js), js) == Some(x)
  {
    if x == 0.0 || x == 1.0 {
      WholeRoundTrip(x, js);
    } else {
      hide Trim;
      assert x.Floor == 0;
      TrimTrims(js.text(x));
    }
  }

  /** A variable that ends up undefined could as well not have been set. */
  lemma AbsentStaysAbsent(kind: Kind, raw: Option<string>, js: Platform)
    requires Sound(kind, js) && Faithful(js)
    requires Parse(kind, raw, js) == Fine(None)
    ensures Parse(kind, None, js) == Fine(None)
  {
  }

  /** No field has a default that its own rules would reject. */
  lemma EveryFieldIsSound(key: string, js: Platform)
    requires Faithful(js)
    ensures Sound(KindOf(key), js)
  {
    hide Faithful, Obeys, Trimmed, KindOf;
    WordsAndNumbersFit(key);
    RatiosAreTwo(key);
    LineDefaultsObey(key);
    var kind := KindOf(key);
    match kind
    case Ratio(literal) => RatioIsSound(literal, js);
    case Origins => LocalOriginIsTyped(js);
    case _ =>
  }

  lemma WordsAndNumbersFit(key: string)
    ensures var kind := KindOf(key);
      && (kind.Choice? && kind.fallback.Some? ==> kind.fallback.value in kind.options)
      && (kind.Whole? ==> 0 <= kind.min <= kind.start <= kind.max <= MAX_SAFE)
  {
  }

  lemma RatiosAreTwo(key: string)
    ensures KindOf(key).Ratio? ==> KindOf(key).literal == "0.2" || KindOf(key).literal == "0.9"
  {
  }

  lemma RatioIsSound(literal: string, js: Platform)
    requires Faithful(js) && (literal == "0.2" || literal == "0.9")
    ensures Sound(Ratio(literal), js)
  {
    hide Prints;
    assert ReadsInside(js, literal);
  }

  lemma LocalOriginIsTyped(js: Platform)
    requires Faithful(js)
    ensures HasType(Origins, List([LOCAL_ORIGIN]), js)
  {
    hide Prints, ReadsInside;
    assert Trimmed(LOCAL_ORIGIN) && ',' !in LOCAL_ORIGIN;
  }

  lemma LineDefaultsObey(key: string)
    ensures var kind := KindOf(key);
      kind.Line? ==> Obeys(kind.rule, kind.initial) && (kind.trim ==> Trimmed(kind.initial))
  {
    hide Obeys, Trimmed;
    LongDefault();
    NameDefault();
    ShortDefaults();
  }

  lemma LongDefault()
    ensures Obeys(AtLeast(32), DEFAULT_SECRET)
  {
    assert |DEFAULT_SECRET| >= 32;
  }

  lemma NameDefault()
    ensures Obeys(NameRule, "rimac_refresh")
  {
  }

  lemma ShortDefaults()
    ensures Obeys(AtLeast(1), "15m") && Obeys(AtLeast(1), "7d") && Obeys(AtLeast(1), "us-east-1")
    ensures Obeys(AtLeast(3), "bus-impl-local-uploads") && Obeys(PathRule, "/auth")
    ensures Obeys(AtLeast(1), "uploads") && Trimmed("uploads")
  {
    hide Units;
  }

  // --------------------------------------------------- the whole environment

  /** What validation promises its callers: every field present has its type,
      fields with a default are present, and the rules hold. */
  lemma ValidatedIsTyped(config: Vars, js: Platform)
    requires Faithful(js) && Validate(config, js).Some?
    ensures var e := Validate(config, js).value;
      && RulesHold(e, js)
      && (forall k <- e :: HasType(KindOf(k), e[k], js))
      && (forall k <- KEYS :: Default(KindOf(k), js).Some? ==> k in e)
  {
    hide KindOf, HasType, Parse, RulesHold, Faithful, Default;
    var e := Validate(config, js).value;
    forall k | k in e ensures HasType(KindOf(k), e[k], js) {
      EveryFieldIsSound(k, js);
      ParseIsTyped(KindOf(k), Loader.Get(config, k), js);
    }
    forall k | k in KEYS && k !in e ensures Default(KindOf(k), js).None? {
      EveryFieldIsSound(k, js);
      assert Field(config, k, js) == Fine(None);
      AbsentStaysAbsent(KindOf(k), Loader.Get(config, k), js);
      AbsentIsDefault(KindOf(k), js);
    }
  }

  lemma AbsentIsDefault(kind: Kind, js: Platform)
    ensures Parse(kind, None, js) == Fine(Default(kind, js))
  {
  }

  /** The process environment wins the merge, except for APP_STAGE. */
  predicate Agrees(env: Vars, config: Vars) {
    forall k <- env :: k in config && (k == "APP_STAGE" || config[k] == env[k])
  }

  /** A field after the write-back, whatever the lower layer says of other names. */
  lemma FieldComesBack(config: Vars, env: Vars, files: Vars, key: string, js: Platform)
    requires Faithful(js) && Agrees(env, config) && Validate(config, js).Some?
    requires key in WriteBack(env, Validate(config, js).value, js) || key !in files
    ensures var e := Validate(config, js).value;
      Field(files + WriteBack(env, e, js), key, js) == Fine(if key in e then Some(e[key]) else None)
  {
    hide KindOf, HasType, Sound, Parse, RulesHold, Faithful, Show, Agrees;
    var e := Validate(config, js).value;
    var raw := Loader.Get(files + WriteBack(env, e, js), key);
    EveryFieldIsSound(key, js);
    if key in e {
      ParseIsTyped(KindOf(key), Loader.Get(config, key), js);
      ShowThenParse(KindOf(key), e[key], js);
      assert raw == Some(Show(e[key], js));
    } else if key in env {
      StageIsPresent(config, js);
      AgreesAt(env, config, key);
      assert raw == Loader.Get(config, key);
    } else {
      assert raw == None;
      MissingIsNone(config, key, js);
    }
  }

  lemma AgreesAt(env: Vars, config: Vars, key: string)
    requires Agrees(env, config) && key in env && key != "APP_STAGE"
    ensures key in config && config[key] == env[key]
  {
  }

  lemma StageIsPresent(config: Vars, js: Platform)
    requires Validate(config, js).Some?
    ensures "APP_STAGE" in Validate(config, js).value
  {
    hide RulesHold;
    assert "APP_STAGE" in KEYS;
    StageHasValue(Loader.Get(config, "APP_STAGE"), js);
  }

  lemma StageHasValue(raw: Option<string>, js: Platform)
    ensures var p := Parse(KindOf("APP_STAGE"), raw, js); p.Fine? ==> p.value.Some?
  {
  }

  lemma MissingIsNone(config: Vars, key: string, js: Platform)
    requires Faithful(js) && Validate(config, js).Some? && key !in Validate(config, js).value
    ensures Parse(KindOf(key), None, js) == Fine(None)
  {
    hide RulesHold, Sound, Faithful, Parse, KindOf;
    EveryFieldIsSound(key, js);
    if key in KEYS || key in config {
      assert Field(config, key, js) == Fine(None);
      AbsentStaysAbsent(KindOf(key), Loader.Get(config, key), js);
    } else {
      OtherNamesAreExtra(key);
      AbsentIsDefault(Extra, js);
    }
  }

  lemma OtherNamesAreExtra(key: string)
    requires key !in KEYS
    ensures KindOf(key) == Extra
  {
  }

  /** A name the second parse sees only in the files below the process
      environment, with something to say. */
  predicate SaysMore(files: Vars, written: Vars, key: string) {
    key in files && key !in written && !(KindOf(key) == NonEmpty && files[key] == "")
  }

  /** Written back and validated again, on top of whatever files the second
      reader finds, the environment is the same exactly when those files say
      nothing more: numbers, flags, defaults, absent fields and the list of
      origins all come back, and so the rules still hold. */
  lemma WriteBackRoundTrip(config: Vars, env: Vars, files: Vars, js: Platform)
    requires Faithful(js) && Agrees(env, config) && Validate(config, js).Some?
    ensures var e := Validate(config, js).value;
      var written := WriteBack(env, e, js);
      Validate(files + written, js) == Some(e) <==> forall k <- files :: !SaysMore(files, written, k)
  {
    hide KindOf, Parse, RulesHold, Faithful, Show, Agrees, SaysMore, WriteBack;
    var e := Validate(config, js).value;
    var written := WriteBack(env, e, js);
    WrittenHolds(env, e, js);
    forall k | k in written || k !in files
      ensures Field(files + written, k, js) == Fine(if k in e then Some(e[k]) else None)
    {
      FieldComesBack(config, env, files, k, js);
    }
    forall k | k in files && k !in written
      ensures SaysMore(files, written, k) <==> Field(files + written, k, js) != Fine(None)
    {
      LowerName(files, written, k, js);
    }
    forall k | SaysMore(files, written, k) ensures k in files && k !in written {
      MoreIsBelow(files, written, k);
    }
    SameFields(files, written, e, js);
  }

  lemma WrittenHolds(env: Vars, e: Env, js: Platform)
    ensures forall k <- e :: k in WriteBack(env, e, js)
  {
  }

  lemma MoreIsBelow(files: Vars, written: Vars, key: string)
    requires SaysMore(files, written, key)
    ensures key in files && key !in written
  {
  }

  lemma LowerName(files: Vars, written: Vars, key: string, js: Platform)
    requires key in files && key !in written
    ensures SaysMore(files, written, key) <==> Field(files + written, key, js) != Fine(None)
  {
    hide KindOf, ReadNumber, Clean, Split;
  }

  /** Two maps of fields are equal when every name agrees. */
  lemma SameFields(files: Vars, written: Vars, e: Env, js: Platform)
    requires forall k <- e :: k in written
    requires RulesHold(e, js) && forall k <- e :: k in KEYS + (files + written).Keys
    requires forall k | k in written || k !in files ::
      Field(files + written, k, js) == Fine(if k in e then Some(e[k]) else None)
    ensures Validate(files + written, js) == Some(e)
       <==> forall k <- files :: k !in written ==> Field(files + written, k, js) == Fine(None)
  {
    hide Field, RulesHold;
    var all := files + written;
    if forall k <- files :: k !in written ==> Field(all, k, js) == Fine(None) {
      forall k ensures Field(all, k, js) == Fine(if k in e then Some(e[k]) else None) {
        if k in files && k !in written { assert k !in e; }
      }
      assert Fields(all, js) == e;
    } else {
      var k :| k in files && k !in written && Field(all, k, js) != Fine(None);
      if FieldsParse(all, js) {
        assert k in Fields(all, js) && k !in e;
      }
    }
  }

  // ------------------------------------------------------------------ start-up

  const NO_OPTIONS := Loader.LoaderOptions(None, None, None)

  /** Load, then validate; None is any of the thrown errors. */
  function Started(env: Vars, file: Option<string>, cloud: Loader.Cloud, js: Platform): Option<Env> {
    var config := Loader.Load(NO_OPTIONS, env, file, cloud);
    if config.Err? then None else Validate(config.value, js)
  }

  class Process {
    var env: Vars

    constructor (env: Vars)
      ensures this.env == env
    {
      this.env := env;
    }

    /** Validation succeeds or fails as specified; only on success is the
        process environment overwritten, entry by entry. */
    method ValidateEnvironmentAsync(file: Option<string>, cloud: Loader.Cloud, js: Platform)
      returns (environment: Option<Env>)
      requires cloud.ssm.Some? ==> cloud.ssm.value != []
      modifies this
      ensures environment == Started(old(env), file, cloud, js)
      ensures env == if environment.None? then old(env) else WriteBack(old(env), environment.value, js)
    {
      hide Loader.Load, Validate, WriteBack;
      var config := Loader.LoadConfig(NO_OPTIONS, env, file, cloud);
      if config.Err? { return None; }
      environment := Validate(config.value, js);
      if environment.None? { return; }
      WriteAll(environment.value, js);
    }

    /** The loop over the entries of the validated environment. */
    method WriteAll(e: Env, js: Platform)
      modifies this
      ensures env == WriteBack(old(env), e, js)
    {
      hide Show, Written;
      WrittenNone(env, e, js);
      ghost var before := env;
      var rest := e.Keys;
      while rest != {}
        invariant rest <= e.Keys
        invariant Written(before, e, e.Keys - rest, env, js)
      {
        var key :| key in rest;
        WrittenOne(before, e, e.Keys - rest, env, key, js);
        assert e.Keys - (rest - {key}) == e.Keys - rest + {key};
        env := env[key := Show(e[key], js)];
        rest := rest - {key};
      }
      assert e.Keys - rest == e.Keys;
      WrittenAll(before, e, env, js);
    }
  }

  lemma WrittenNone(before: Vars, e: Env, js: Platform)
    ensures Written(before, e, e.Keys - e.Keys, before, js)
  {
  }

  lemma WrittenOne(before: Vars, e: Env, keys: set<string>, env: Vars, key: string, js: Platform)
    requires keys <= e.Keys && key in e && Written(before, e, keys, env, js)
    ensures Written(before, e, keys + {key}, env[key := Show(e[key], js)], js)
  {
    hide Show;
  }

  lemma WrittenAll(before: Vars, e: Env, env: Vars, js: Platform)
    requires Written(before, e, e.Keys, env, js)
    ensures env == WriteBack(before, e, js)
  {
    hide Show;
  }

  /** env is before with the entries of some keys written over it. */
  ghost predicate Written(before: Vars, e: Env, keys: set<string>, env: Vars, js: Platform)
    requires keys <= e.Keys
  {
    && env.Keys == before.Keys + keys
    && (forall k <- env :: env[k] == if k in keys then Show(e[k], js) else before[k])
  }

  lemma MergeAgrees(env: Vars, file: Option<string>, cloud: Loader.Cloud)
    requires Loader.Load(NO_OPTIONS, env, file, cloud).Ok?
    ensures Agrees(env, Loader.Load(NO_OPTIONS, env, file, cloud).value)
  {
    hide Loader.Collect, Loader.Flatten, Loader.ParseEnv;
  }

  /** The framework's own reading of the process environment after start-up gives
      the same environment, unless its files say more; in the local stage a file
      layer that reads as the loader's never does. */
  lemma SecondReaderSeesTheSame(env: Vars, file: Option<string>, cloud: Loader.Cloud, files: Vars, js: Platform)
    requires Faithful(js) && Started(env, file, cloud, js).Some?
    ensures var e := Started(env, file, cloud, js).value;
      var written := WriteBack(env, e, js);
      && (Validate(files + written, js) == Some(e) <==> forall k <- files :: !SaysMore(files, written, k))
      && (files == Loader.FileLayer(NO_OPTIONS, env, file) ==> Validate(files + written, js) == Some(e))
  {
    hide Loader.Load, Loader.FileLayer, Validate, Agrees, WriteBack, Faithful, SaysMore;
    var config := Loader.Load(NO_OPTIONS, env, file, cloud).value;
    var e := Validate(config, js).value;
    var written := WriteBack(env, e, js);
    MergeAgrees(env, file, cloud);
    WriteBackRoundTrip(config, env, files, js);
    if files == Loader.FileLayer(NO_OPTIONS, env, file) {
      forall k | k in files ensures !SaysMore(files, written, k) {
        SameFileSaysNoMore(env, file, cloud, k, js);
      }
    }
  }

  lemma SameFileSaysNoMore(env: Vars, file: Option<string>, cloud: Loader.Cloud, key: string, js: Platform)
    requires Faithful(js) && Started(env, file, cloud, js).Some?
    requires key in Loader.FileLayer(NO_OPTIONS, env, file)
    ensures var files := Loader.FileLayer(NO_OPTIONS, env, file);
      !SaysMore(files, WriteBack(env, Started(env, file, cloud, js).value, js), key)
  {
    hide Validate, Faithful, Loader.Collect, Loader.Flatten, Loader.ParseEnv, KindOf, Show, SaysMore;
    var files, config := Loader.FileLayer(NO_OPTIONS, env, file), Loader.Load(NO_OPTIONS, env, file, cloud).value;
    var e := Validate(config, js).value;
    var written := WriteBack(env, e, js);
    if key in written {
      WrittenIsNotMore(files, written, key);
    } else {
      StageIsPresent(config, js);
      assert key != "APP_STAGE" && key !in env;
      assert Loader.Get(config, key) == Some(files[key]);
      AbsentMeansNoMore(config, files, written, key, js);
    }
  }

  lemma WrittenIsNotMore(files: Vars, written: Vars, key: string)
    requires key in written
    ensures !SaysMore(files, written, key)
  {
  }

  lemma AbsentMeansNoMore(config: Vars, files: Vars, written: Vars, key: string, js: Platform)
    requires Validate(config, js).Some? && key !in Validate(config, js).value
    requires key in files && Loader.Get(config, key) == Some(files[key]) && key !in written
    ensures !SaysMore(files, written, key)
  {
    hide RulesHold, KindOf, SaysMore;
    assert key in config && Field(config, key, js) == Fine(None);
    assert Loader.Get(files + written, key) == Loader.Get(config, key);
    LowerName(files, written, key, js);
  }

  /** A staging or production environment that validates has a long secret of its
      own, at least one origin and none on the local host, no static cloud
      credentials, and a database. */
  lemma ProductionIsLockedDown(config: Vars, js: Platform)
    requires Faithful(js) && Validate(config, js).Some? && ProductionLike(Validate(config, js).value)
    ensures var e := Validate(config, js).value;
      && "JWT_SECRET" in e && e["JWT_SECRET"].Str?
      && Units(e["JWT_SECRET"].text) >= 32 && e["JWT_SECRET"].text != DEFAULT_SECRET
      && "CORS_ALLOWED_ORIGINS" in e && e["CORS_ALLOWED_ORIGINS"].List? && e["CORS_ALLOWED_ORIGINS"].items != []
      && (forall o <- e["CORS_ALLOWED_ORIGINS"].items :: js.isUrl(o) && js.hostname(o) != "localhost")
      && "AWS_ACCESS_KEY_ID" !in e && "AWS_SECRET_ACCESS_KEY" !in e
      && ("DATABASE_URL" in e || "DATABASE_SECRET_ARN" in e)
  {
    hide Validate, Faithful, KindOf, Units, HasType;
    var e := Validate(config, js).value;
    ValidatedIsTyped(config, js);
    KindsOfSecrets();
    SecretIsTyped(e, js);
    OriginsAreTyped(e, js);
    assert "AWS_ACCESS_KEY_ID" in e ==> Truthy(e, "AWS_ACCESS_KEY_ID") by {
      PresentIsTruthy(e, "AWS_ACCESS_KEY_ID", js);
    }
    assert "AWS_SECRET_ACCESS_KEY" in e ==> Truthy(e, "AWS_SECRET_ACCESS_KEY") by {
      PresentIsTruthy(e, "AWS_SECRET_ACCESS_KEY", js);
    }
  }

  lemma KindsOfSecrets()
    ensures KindOf("AWS_ACCESS_KEY_ID") == KindOf("AWS_SECRET_ACCESS_KEY") == NonEmpty
  {
  }

  lemma PresentIsTruthy(e: Env, key: string, js: Platform)
    requires KindOf(key) == NonEmpty && (key in e ==> HasType(KindOf(key), e[key], js))
    ensures key in e ==> Truthy(e, key)
  {
  }

  lemma SecretIsTyped(e: Env, js: Platform)
    requires forall k <- e :: HasType(KindOf(k), e[k], js)
    requires forall k <- KEYS :: Default(KindOf(k), js).Some? ==> k in e
    ensures "JWT_SECRET" in e && e["JWT_SECRET"].Str? && Units(e["JWT_SECRET"].text) >= 32
  {
    hide KindOf, Units;
    assert KindOf("JWT_SECRET") == Line(AtLeast(32), false, DEFAULT_SECRET) by { KindOfSecret(); }
    assert "JWT_SECRET" in KEYS;
  }

  lemma KindOfSecret()
    ensures KindOf("JWT_SECRET") == Line(AtLeast(32), false, DEFAULT_SECRET)
  {
  }

  lemma OriginsAreTyped(e: Env, js: Platform)
    requires forall k <- e :: HasType(KindOf(k), e[k], js)
    requires forall k <- KEYS :: Default(KindOf(k), js).Some? ==> k in e
    ensures "CORS_ALLOWED_ORIGINS" in e && e["CORS_ALLOWED_ORIGINS"].List?
    ensures AllUrls(e["CORS_ALLOWED_ORIGINS"].items, js)
  {
    hide KindOf, AllUrls;
    KindOfOrigins();
    assert "CORS_ALLOWED_ORIGINS" in KEYS;
  }

  lemma KindOfOrigins()
    ensures KindOf("CORS_ALLOWED_ORIGINS") == Origins
  {
  }

  /** A cookie name that validates is one the cookie reader finds again. */
  lemma CookieNameIsWellFormed(config: Vars, js: Platform)
    requires Faithful(js) && Validate(config, js).Some?
    ensures var e := Validate(config, js).value;
      && "AUTH_REFRESH_COOKIE_NAME" in e && e["AUTH_REFRESH_COOKIE_NAME"].Str?
      && Cookie.WellFormed(e["AUTH_REFRESH_COOKIE_NAME"].text)
  {
    hide Validate, Faithful, KindOf, Cookie.WellFormed, Obeys, RulesHold;
    var e := Validate(config, js).value;
    ValidatedIsTyped(config, js);
    KindOfName();
    assert "AUTH_REFRESH_COOKIE_NAME" in KEYS;
    NameIsWellFormed(e["AUTH_REFRESH_COOKIE_NAME"].text);
  }

  lemma KindOfName()
    ensures KindOf("AUTH_REFRESH_COOKIE_NAME") == Line(NameRule, false, "rimac_refresh")
  {
  }

  lemma NameIsWellFormed(name: string)
    requires Obeys(NameRule, name)
    ensures Cookie.WellFormed(name)
  {
    forall c <- name ensures !IsSpace(c) && c != '=' && c != ';' { assert NameChar(c); }
    hide IsSpace, NameChar;
    assert name[0] in name && name[|name| - 1] in name;
  }
}
