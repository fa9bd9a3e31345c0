/** What the environment schema accepts and yields, written out on the
    configuration's own strings. */
module EnvironmentContracts {
  import opened Options
  import opened Text
  import opened EnvironmentSchema

  // ------------------------------------------------------- the list of origins

  /** Items with white space around them. */
  function Padded(before: seq<string>, items: seq<string>, after: seq<string>): seq<string>
    requires |before| == |items| == |after|
  {
    seq(|items|, i requires 0 <= i < |items| => before[i] + items[i] + after[i])
  }

  lemma {:induction false} CleanTrims(before: seq<string>, items: seq<string>, after: seq<string>)
    requires |before| == |items| == |after|
    requires forall s <- before + after :: Blank(s)
    requires forall o <- items :: o != [] && Trimmed(o)
    ensures Clean(Padded(before, items, after)) == items
  {
    hide Trim, Trimmed, Blank;
    if items != [] {
      assert items[0] in items && before[0] in before + after;
      assert after[0] in before + after by { assert after[0] in after; }
      TrimPadded(before[0], items[0], after[0]);
      assert Padded(before, items, after)[1..] == Padded(before[1..], items[1..], after[1..]);
      forall s <- before[1..] + after[1..] ensures Blank(s) {
        assert s in before || s in after;
      }
      forall o <- items[1..] ensures o in items {}
      CleanTrims(before[1..], items[1..], after[1..]);
    }
  }

  /** White space around an origin is taken away, the origin kept: the variable is
      accepted, with these origins in this order, exactly when all are URLs. */
  lemma OriginsAreTrimmed(before: seq<string>, items: seq<string>, after: seq<string>, js: Platform)
    requires |before| == |items| == |after| && items != []
    requires forall s <- before + after :: Blank(s)
    requires forall o <- items :: o != [] && Trimmed(o) && ',' !in o
    ensures Parse(KindOf("CORS_ALLOWED_ORIGINS"), Some(Join(Padded(before, items, after), ",")), js)
         == if forall o <- items :: js.isUrl(o) then Fine(Some(List(items))) else Bad
  {
    KindOfOrigins();
    hide Trimmed, Blank, KindOf, Clean, Split, Join;
    NoCommaInPadding(before, items, after);
    CleanTrims(before, items, after);
    hide Padded;
    SplitJoin(Padded(before, items, after), ',');
    OriginsOf(Join(Padded(before, items, after), ","), items, js);
  }

  lemma OriginsOf(text: string, items: seq<string>, js: Platform)
    requires Clean(Split(text, ',')) == items && items != []
    ensures Parse(Origins, Some(text), js)
         == if forall o <- items :: js.isUrl(o) then Fine(Some(List(items))) else Bad
  {
    hide Clean, Split;
  }

  lemma NoCommaInPadding(before: seq<string>, items: seq<string>, after: seq<string>)
    requires |before| == |items| == |after|
    requires forall s <- before + after :: Blank(s)
    requires forall o <- items :: ',' !in o
    ensures forall p <- Padded(before, items, after) :: ',' !in p
  {
    assert !IsSpace(',');
    hide IsSpace;
    forall p <- Padded(before, items, after) ensures ',' !in p {
      var i :| 0 <= i < |items| && p == before[i] + items[i] + after[i];
      assert items[i] in items && before[i] in before + after;
      assert after[i] in before + after by { assert after[i] in after; }
    }
  }

  /** A blank piece is as good as none. */
  lemma {:induction false} BlankPieceIsDropped(a: seq<string>, blank: string, b: seq<string>)
    requires Blank(blank)
    ensures Clean(a + [blank] + b) == Clean(a + b)
  {
    hide Trim, Blank;
    if a == [] {
      BlankTrims(blank);
      assert (a + [blank] + b)[1..] == b && a + b == b;
    } else {
      BlankPieceIsDropped(a[1..], blank, b);
      assert (a + [blank] + b)[1..] == a[1..] + [blank] + b && (a + b)[1..] == a[1..] + b;
    }
  }

  // ------------------------------------------------------------ single fields

  /** A decimal number in a numeric variable: its range decides. */
  lemma NumbersAccept(n: nat, js: Platform)
    ensures var text := Some(PrintNat(n));
      var yes := Fine(Some(Num(n as real)));
      && Parse(KindOf("PORT"), text, js) == (if 1 <= n <= 65535 then yes else Bad)
      && Parse(KindOf("DATABASE_POOL_MAX"), text, js) == (if 1 <= n <= 100 then yes else Bad)
      && Parse(KindOf("DATABASE_IDLE_TIMEOUT_MS"), text, js) == (if 1 <= n <= 9007199254740991 then yes else Bad)
      && Parse(KindOf("TRUSTED_PROXY_HOPS"), text, js) == (if n <= 10 then yes else Bad)
      && Parse(KindOf("BEDROCK_MAX_TOKENS"), text, js) == (if 1 <= n <= 4096 then yes else Bad)
      && Parse(KindOf("UPLOAD_PRESIGNED_URL_EXPIRY_SECONDS"), text, js) == (if 1 <= n <= 3600 then yes else Bad)
      && Parse(KindOf("WORKER_WAIT_TIME_SECONDS"), text, js) == (if 1 <= n <= 20 then yes else Bad)
      && Parse(KindOf("WORKER_VISIBILITY_TIMEOUT_SECONDS"), text, js) == (if 30 <= n <= 43200 then yes else Bad)
      && Parse(KindOf("WORKER_MAX_MESSAGES"), text, js) == (if 1 <= n <= 10 then yes else Bad)
      && Parse(KindOf("BEDROCK_TEMPERATURE"), text, js) == (if n <= 1 then yes else Bad)
      && Parse(KindOf("BEDROCK_TOP_P"), text, js) == (if n <= 1 then yes else Bad)
  {
    ReadPrint(n);
    TrimTrims(PrintNat(n));
    hide Trim, Trimmed, PrintNat, ReadNat, KindOf;
    assert ReadNumber(PrintNat(n), js) == Some(n as real) && IsWhole(n as real);
    KindsOfServer();
    KindsOfWorker();
    KindsOfModel();
    hide ReadNumber, IsWhole;
  }

  lemma KindsOfServer()
    ensures KindOf("PORT") == Whole(1, 65535, 3000) && KindOf("TRUSTED_PROXY_HOPS") == Whole(0, 10, 1)
    ensures KindOf("DATABASE_POOL_MAX") == Whole(1, 100, 10)
    ensures KindOf("DATABASE_IDLE_TIMEOUT_MS") == Whole(1, 9007199254740991, 30000)
  {
  }

  lemma KindsOfWorker()
    ensures KindOf("WORKER_WAIT_TIME_SECONDS") == Whole(1, 20, 20)
    ensures KindOf("WORKER_VISIBILITY_TIMEOUT_SECONDS") == Whole(30, 43200, 120)
    ensures KindOf("WORKER_MAX_MESSAGES") == Whole(1, 10, 10)
  {
  }

  lemma KindsOfModel()
    ensures KindOf("BEDROCK_MAX_TOKENS") == Whole(1, 4096, 1024)
    ensures KindOf("UPLOAD_PRESIGNED_URL_EXPIRY_SECONDS") == Whole(1, 3600, 900)
    ensures KindOf("BEDROCK_TEMPERATURE") == Ratio("0.2") && KindOf("BEDROCK_TOP_P") == Ratio("0.9")
  {
  }

  lemma KindsOfWords()
    ensures KindOf("APP_STAGE") == Choice({"local", "development", "staging", "production"}, Some("local"))
    ensures KindOf("NODE_ENV") == Choice({"development", "test", "production"}, Some("development"))
    ensures KindOf("LOG_LEVEL").Choice? && KindOf("LOG_LEVEL").fallback == None && KindOf("API_DOCS_ENABLED") == Flag
  {
  }

  /** A blank counts as zero: refused where zero is out of range. */
  lemma BlankIsZero(s: string, js: Platform)
    requires Blank(s)
    ensures Parse(KindOf("TRUSTED_PROXY_HOPS"), Some(s), js) == Fine(Some(Num(0.0)))
    ensures Parse(KindOf("BEDROCK_TEMPERATURE"), Some(s), js) == Fine(Some(Num(0.0)))
    ensures Parse(KindOf("PORT"), Some(s), js) == Bad
  {
    BlankTrims(s);
    hide Trim, Blank;
    assert ReadNumber(s, js) == Some(0.0);
    hide ReadNumber;
  }

  /** A spelling that is not a plain decimal is read by the runtime, trimmed. */
  lemma OtherSpellings(a: string, t: string, b: string, js: Platform)
    requires Blank(a) && Blank(b) && Trimmed(t) && t != [] && !IsNumeral(t)
    ensures var p := Parse(KindOf("BEDROCK_TOP_P"), Some(a + t + b), js);
      match js.number(t)
      case None => p == Bad
      case Some(x) => p == if 0.0 <= x <= 1.0 then Fine(Some(Num(x))) else Bad
  {
    hide Trim, Trimmed, Blank, ReadNumber, KindOf, IsNumeral;
    OtherNumber(a, t, b, js);
    KindsOfModel();
  }

  lemma OtherNumber(a: string, t: string, b: string, js: Platform)
    requires Blank(a) && Blank(b) && Trimmed(t) && t != [] && !IsNumeral(t)
    ensures ReadNumber(a + t + b, js) == js.number(t)
  {
    TrimPadded(a, t, b);
    hide Trim, Trimmed, Blank, IsNumeral;
  }

  /** How each kind of value is written back. */
  lemma WrittenAs(js: Platform)
    ensures forall s :: Show(Str(s), js) == s
    ensures Show(Bool(true), js) == "true" && Show(Bool(false), js) == "false"
    ensures forall n: nat | n <= 9007199254740991 :: Show(Num(n as real), js) == PrintNat(n)
    ensures forall x: real | x.Floor as real != x :: Show(Num(x), js) == js.text(x)
    ensures forall items :: Show(List(items), js) == Join(items, ",")
  {
    hide PrintNat, Join;
  }

  /** The characters that take two UTF-16 units. */
  ghost function WidePositions(s: string): set<nat> {
    set i: nat | i < |s| && s[i] >= '\U{10000}'
  }

  /** Lengths are in UTF-16 units. */
  lemma {:induction false} UnitsAre(s: string)
    ensures Units(s) == |s| + |WidePositions(s)|
  {
    if s == [] {
      assert WidePositions(s) == {};
    } else {
      var rest := s[..|s| - 1];
      UnitsAre(rest);
      UnitsOfLast(s);
      if s[|s| - 1] >= '\U{10000}' {
        assert WidePositions(s) == WidePositions(rest) + {|s| - 1};
      } else {
        assert WidePositions(s) == WidePositions(rest);
      }
    }
  }

  lemma {:induction false} UnitsOfLast(s: string)
    requires s != []
    ensures Units(s) == Units(s[..|s| - 1]) + if s[|s| - 1] >= '\U{10000}' then 2 else 1
  {
    if |s| > 1 {
      UnitsOfLast(s[1..]);
      assert s[1..][..|s| - 2] == s[..|s| - 1][1..];
    } else {
      assert s[1..] == [] && s[..0] == [];
    }
  }

  /** Words: one of a fixed list. */
  lemma WordsAccept(s: string, js: Platform)
    ensures var yes := Fine(Some(Str(s)));
      && Parse(KindOf("APP_STAGE"), Some(s), js)
           == (if s == "local" || s == "development" || s == "staging" || s == "production" then yes else Bad)
      && Parse(KindOf("NODE_ENV"), Some(s), js)
           == (if s == "development" || s == "test" || s == "production" then yes else Bad)
      && Parse(KindOf("LOG_LEVEL"), Some(s), js)
           == (if s == "fatal" || s == "error" || s == "warn" || s == "info" || s == "debug" || s == "trace"
                  || s == "silent" then yes else Bad)
      && Parse(KindOf("API_DOCS_ENABLED"), Some(s), js)
           == (if s == "true" then Fine(Some(Bool(true))) else if s == "false" then Fine(Some(Bool(false))) else Bad)
  {
  }

  /** Text: a length, a pattern or a first character. */
  lemma TextsAccept(s: string, js: Platform)
    ensures var yes := Fine(Some(Str(s)));
      && Parse(KindOf("JWT_SECRET"), Some(s), js) == (if Units(s) >= 32 then yes else Bad)
      && Parse(KindOf("JWT_ACCESS_TOKEN_TTL"), Some(s), js) == (if s != "" then yes else Bad)
      && Parse(KindOf("JWT_REFRESH_TOKEN_TTL"), Some(s), js) == (if s != "" then yes else Bad)
      && Parse(KindOf("AWS_REGION"), Some(s), js) == (if s != "" then yes else Bad)
      && Parse(KindOf("UPLOAD_BUCKET_NAME"), Some(s), js) == (if Units(s) >= 3 then yes else Bad)
      && Parse(KindOf("AUTH_REFRESH_COOKIE_PATH"), Some(s), js) == (if "/" <= s then yes else Bad)
      && Parse(KindOf("AUTH_REFRESH_COOKIE_NAME"), Some(s), js)
           == (if s != "" && forall c <- s ::
                 'A' <= c <= 'Z' || 'a' <= c <= 'z' || '0' <= c <= '9' || c == '_' || c == '-' then yes else Bad)
      && Parse(KindOf("UPLOAD_KEY_PREFIX"), Some(s), js) == (if Trim(s) != "" then Fine(Some(Str(Trim(s)))) else Bad)
  {
    hide Units, Trim, KindOf, Parse;
    LengthsAccept(s, js);
    PathsAccept(s, js);
  }

  lemma LengthsAccept(s: string, js: Platform)
    ensures var yes := Fine(Some(Str(s)));
      && Parse(KindOf("JWT_SECRET"), Some(s), js) == (if Units(s) >= 32 then yes else Bad)
      && Parse(KindOf("JWT_ACCESS_TOKEN_TTL"), Some(s), js) == (if s != "" then yes else Bad)
      && Parse(KindOf("JWT_REFRESH_TOKEN_TTL"), Some(s), js) == (if s != "" then yes else Bad)
      && Parse(KindOf("AWS_REGION"), Some(s), js) == (if s != "" then yes else Bad)
      && Parse(KindOf("UPLOAD_BUCKET_NAME"), Some(s), js) == (if Units(s) >= 3 then yes else Bad)
      && Parse(KindOf("UPLOAD_KEY_PREFIX"), Some(s), js) == (if Trim(s) != "" then Fine(Some(Str(Trim(s)))) else Bad)
  {
    hide Units, Trim, KindOf;
    KindOfSecret();
    KindsOfLifetimes();
    KindsOfNames();
    assert Units(s) >= 1 <==> s != "";
    assert Units(Trim(s)) >= 1 <==> Trim(s) != "";
  }

  lemma KindsOfLifetimes()
    ensures KindOf("JWT_ACCESS_TOKEN_TTL") == Line(AtLeast(1), false, "15m")
    ensures KindOf("JWT_REFRESH_TOKEN_TTL") == Line(AtLeast(1), false, "7d")
  {
  }

  lemma KindsOfNames()
    ensures KindOf("AWS_REGION") == Line(AtLeast(1), false, "us-east-1")
    ensures KindOf("UPLOAD_BUCKET_NAME") == Line(AtLeast(3), false, "bus-impl-local-uploads")
    ensures KindOf("UPLOAD_KEY_PREFIX") == Line(AtLeast(1), true, "uploads")
  {
  }

  lemma PathsAccept(s: string, js: Platform)
    ensures var yes := Fine(Some(Str(s)));
      && Parse(KindOf("AUTH_REFRESH_COOKIE_PATH"), Some(s), js) == (if "/" <= s then yes else Bad)
      && Parse(KindOf("AUTH_REFRESH_COOKIE_NAME"), Some(s), js)
           == (if s != "" && forall c <- s ::
                 'A' <= c <= 'Z' || 'a' <= c <= 'z' || '0' <= c <= '9' || c == '_' || c == '-' then yes else Bad)
  {
    hide Units, Trim;
    KindOfName();
    KindOfPath();
    hide KindOf;
  }

  lemma KindOfPath()
    ensures KindOf("AUTH_REFRESH_COOKIE_PATH") == Line(PathRule, false, "/auth")
  {
  }

  lemma KindsOfLoader()
    ensures KindOf("APP_CONFIG_SECRET_ID") == KindOf("CONFIG_SSM_PREFIX") == NonEmpty
  {
  }

  lemma KindsOfDatabase()
    ensures KindOf("DATABASE_URL") == KindOf("DATABASE_SECRET_ARN") == NonEmpty
  {
  }

  lemma KindsOfServices()
    ensures KindOf("GOOGLE_CLIENT_ID") == KindOf("BEDROCK_MODEL_ID") == KindOf("SQS_QUEUE_URL") == NonEmpty
  {
  }

  lemma KindsOfRegion()
    ensures KindOf("AWS_DEFAULT_REGION") == KindOf("AWS_ENDPOINT_URL") == NonEmpty
  {
  }

  /** Optional text: empty is as good as not set. */
  lemma OptionalsAccept(s: string, js: Platform)
    ensures forall key <- ["APP_CONFIG_SECRET_ID", "CONFIG_SSM_PREFIX", "DATABASE_URL", "DATABASE_SECRET_ARN",
      "GOOGLE_CLIENT_ID", "BEDROCK_MODEL_ID", "AWS_DEFAULT_REGION", "AWS_ENDPOINT_URL", "AWS_ACCESS_KEY_ID",
      "AWS_SECRET_ACCESS_KEY", "SQS_QUEUE_URL"] ::
        && Parse(KindOf(key), Some(s), js) == Fine(if s == "" then None else Some(Str(s)))
        && Parse(KindOf(key), None, js) == Fine(None)
  {
    KindsOfLoader();
    KindsOfDatabase();
    KindsOfServices();
    KindsOfRegion();
    KindsOfSecrets();
    assert Parse(NonEmpty, Some(s), js) == Fine(if s == "" then None else Some(Str(s)));
    assert Parse(NonEmpty, None, js) == Fine(None);
    hide KindOf, Parse;
  }

  /** Everything that is not set has its default. */
  lemma DefaultsWrittenOut(js: Platform)
    requires Faithful(js)
    ensures Parse(KindOf("APP_STAGE"), None, js) == Fine(Some(Str("local")))
    ensures Parse(KindOf("NODE_ENV"), None, js) == Fine(Some(Str("development")))
    ensures Parse(KindOf("LOG_LEVEL"), None, js) == Parse(KindOf("API_DOCS_ENABLED"), None, js) == Fine(None)
    ensures Parse(KindOf("CORS_ALLOWED_ORIGINS"), None, js) == Fine(Some(List(["http://localhost:4200"])))
    ensures Parse(KindOf("PORT"), None, js) == Fine(Some(Num(3000.0)))
    ensures Parse(KindOf("DATABASE_POOL_MAX"), None, js) == Fine(Some(Num(10.0)))
    ensures Parse(KindOf("DATABASE_IDLE_TIMEOUT_MS"), None, js) == Fine(Some(Num(30000.0)))
    ensures Parse(KindOf("TRUSTED_PROXY_HOPS"), None, js) == Fine(Some(Num(1.0)))
    ensures Parse(KindOf("BEDROCK_MAX_TOKENS"), None, js) == Fine(Some(Num(1024.0)))
    ensures Parse(KindOf("UPLOAD_PRESIGNED_URL_EXPIRY_SECONDS"), None, js) == Fine(Some(Num(900.0)))
    ensures Parse(KindOf("WORKER_WAIT_TIME_SECONDS"), None, js) == Fine(Some(Num(20.0)))
    ensures Parse(KindOf("WORKER_VISIBILITY_TIMEOUT_SECONDS"), None, js) == Fine(Some(Num(120.0)))
    ensures Parse(KindOf("WORKER_MAX_MESSAGES"), None, js) == Fine(Some(Num(10.0)))
    ensures Parse(KindOf("BEDROCK_TEMPERATURE"), None, js) == Fine(Some(Num(js.number("0.2").value)))
    ensures Parse(KindOf("BEDROCK_TOP_P"), None, js) == Fine(Some(Num(js.number("0.9").value)))
    ensures Parse(KindOf("JWT_SECRET"), None, js) == Fine(Some(Str("local-development-secret-change-me-please")))
    ensures Parse(KindOf("JWT_ACCESS_TOKEN_TTL"), None, js) == Fine(Some(Str("15m")))
    ensures Parse(KindOf("JWT_REFRESH_TOKEN_TTL"), None, js) == Fine(Some(Str("7d")))
    ensures Parse(KindOf("AUTH_REFRESH_COOKIE_NAME"), None, js) == Fine(Some(Str("rimac_refresh")))
    ensures Parse(KindOf("AUTH_REFRESH_COOKIE_PATH"), None, js) == Fine(Some(Str("/auth")))
    ensures Parse(KindOf("AWS_REGION"), None, js) == Fine(Some(Str("us-east-1")))
    ensures Parse(KindOf("UPLOAD_BUCKET_NAME"), None, js) == Fine(Some(Str("bus-impl-local-uploads")))
    ensures Parse(KindOf("UPLOAD_KEY_PREFIX"), None, js) == Fine(Some(Str("uploads")))
  {
    hide Prints, KindOf;
    assert ReadsInside(js, "0.2") && ReadsInside(js, "0.9");
    KindsOfServer();
    KindsOfWorker();
    KindsOfModel();
    KindsOfWords();
    KindOfSecret();
    KindsOfLifetimes();
    KindsOfNames();
    KindOfName();
    KindOfPath();
    KindOfOrigins();
    hide ReadsInside, Faithful;
  }

  /** A variable the schema does not know is passed through. */
  lemma OthersPass(key: string, s: string, js: Platform)
    requires key !in KEYS
    ensures Parse(KindOf(key), Some(s), js) == Fine(Some(Str(s)))
  {
    OtherNamesAreExtra(key);
  }

  // --------------------------------------------------- the rules across fields

  lemma FieldIs(config: Vars, key: string, js: Platform)
    requires FieldsParse(config, js) && (key in KEYS || key in config)
    ensures var e, p := Fields(config, js), Field(config, key, js);
      && p.Fine? && (key in e <==> p.value.Some?)
      && (key in e ==> e[key] == p.value.value)
  {
    hide Field;
  }

  lemma OptionalIs(config: Vars, key: string, js: Platform)
    requires FieldsParse(config, js) && key in KEYS && KindOf(key) == NonEmpty
    ensures Truthy(Fields(config, js), key) <==> key in config && config[key] != ""
  {
    hide Fields, FieldsParse, KindOf;
    FieldIs(config, key, js);
  }

  lemma StageIs(config: Vars, js: Platform)
    requires FieldsParse(config, js)
    ensures ProductionLike(Fields(config, js))
       <==> "APP_STAGE" in config && (config["APP_STAGE"] == "staging" || config["APP_STAGE"] == "production")
  {
    hide Fields, FieldsParse;
    assert "APP_STAGE" in KEYS;
    FieldIs(config, "APP_STAGE", js);
  }

  lemma SecretIs(config: Vars, js: Platform)
    requires FieldsParse(config, js)
    ensures var e := Fields(config, js);
      "JWT_SECRET" in e && (e["JWT_SECRET"] == Str("local-development-secret-change-me-please")
        <==> "JWT_SECRET" !in config || config["JWT_SECRET"] == "local-development-secret-change-me-please")
  {
    hide Fields, FieldsParse, KindOf, Obeys;
    KindOfSecret();
    assert "JWT_SECRET" in KEYS;
    FieldIs(config, "JWT_SECRET", js);
  }

  /** The origins a configuration means, when all of them are URLs. */
  lemma OriginsIs(config: Vars, js: Platform)
    requires FieldsParse(config, js)
    ensures LocalOrigin(Fields(config, js), js)
       <==> if "CORS_ALLOWED_ORIGINS" in config
            then exists o <- Clean(Split(config["CORS_ALLOWED_ORIGINS"], ',')) ::
                   o == "*" || js.hostname(o) == "localhost"
            else js.hostname("http://localhost:4200") == "localhost"
  {
    hide Fields, FieldsParse, KindOf, Clean, Split, AllUrls;
    KindOfOrigins();
    assert "CORS_ALLOWED_ORIGINS" in KEYS;
    FieldIs(config, "CORS_ALLOWED_ORIGINS", js);
  }

  lemma AreFields()
    ensures "DATABASE_URL" in KEYS && "DATABASE_SECRET_ARN" in KEYS
    ensures "AWS_ACCESS_KEY_ID" in KEYS && "AWS_SECRET_ACCESS_KEY" in KEYS
  {
    assert NAMES[8] == "DATABASE_URL" && NAMES[9] == "DATABASE_SECRET_ARN";
    assert NAMES[26] == "AWS_ACCESS_KEY_ID" && NAMES[27] == "AWS_SECRET_ACCESS_KEY";
    KeysAreNames();
    hide NAMES, KEYS;
  }

  lemma KeysAreNames()
    ensures |NAMES| == 35 && forall i | 0 <= i < |NAMES| :: NAMES[i] in KEYS
  {
  }

  /** A configuration whose fields all parse is accepted exactly when the two cloud
      keys come together and, in staging and production, there are none of them, no
      origin is local, the secret is set and not the built-in one, and there is a
      database. */
  lemma AcceptedExactlyWhen(config: Vars, js: Platform)
    requires FieldsParse(config, js)
    ensures
      var id := "AWS_ACCESS_KEY_ID" in config && config["AWS_ACCESS_KEY_ID"] != "";
      var key := "AWS_SECRET_ACCESS_KEY" in config && config["AWS_SECRET_ACCESS_KEY"] != "";
      var strict := "APP_STAGE" in config
        && (config["APP_STAGE"] == "staging" || config["APP_STAGE"] == "production");
      Validate(config, js).Some?
      <==>
        && (id <==> key)
        && (strict ==>
              && !id && !key
              && "JWT_SECRET" in config && config["JWT_SECRET"] != "local-development-secret-change-me-please"
              && (|| ("DATABASE_URL" in config && config["DATABASE_URL"] != "")
                  || ("DATABASE_SECRET_ARN" in config && config["DATABASE_SECRET_ARN"] != ""))
              && (if "CORS_ALLOWED_ORIGINS" in config
                  then forall o <- Clean(Split(config["CORS_ALLOWED_ORIGINS"], ',')) ::
                         o != "*" && js.hostname(o) != "localhost"
                  else js.hostname("http://localhost:4200") != "localhost"))
  {
    KindsOfSecrets();
    KindsOfDatabase();
    AreFields();
    hide Fields, FieldsParse, KindOf, Clean, Split, Truthy, ProductionLike, LocalOrigin;
    OptionalIs(config, "AWS_ACCESS_KEY_ID", js);
    OptionalIs(config, "AWS_SECRET_ACCESS_KEY", js);
    OptionalIs(config, "DATABASE_URL", js);
    OptionalIs(config, "DATABASE_SECRET_ARN", js);
    StageIs(config, js);
    SecretIs(config, js);
    OriginsIs(config, js);
  }
}
