/** Two facts about the environment schema that need a concrete input: some
    runtime keeps the promises asked of it, and a file below the process
    environment can make the second parse differ. */
module EnvironmentExamples {
  import opened Options
  import opened Text
  import opened EnvironmentSchema
  import Loader = ConfigLoader

  const HOST: Platform := Platform(
    s => if s == "0.2" then Some(0.2) else if s == "0.9" then Some(0.9) else None,
    x => if x == 0.2 then "0.2" else "0.9",
    _ => true,
    s => if s == LOCAL_ORIGIN then "localhost" else s)

  lemma SomeRuntimeIsFaithful()
    ensures Faithful(HOST)
  {
    assert !IsDigit('.') && '.' in "0.2" && '.' in "0.9";
    assert Trimmed("0.2") && Trimmed("0.9");
    hide IsDigit, Trimmed;
    forall s | ReadsInside(HOST, s) ensures Prints(HOST, HOST.number(s).value) {
      assert s == "0.2" || s == "0.9";
    }
  }

  const SECRET := "0123456789abcdef0123456789abcdef"

  /** A staging process, configured by its environment alone. */
  const STAGING: Loader.Vars := map[
    "APP_STAGE" := "staging",
    "JWT_SECRET" := SECRET,
    "CORS_ALLOWED_ORIGINS" := "o",
    "DATABASE_URL" := "d"]

  const NO_CLOUD := Loader.Cloud(Some([[]]), Some(map[]))

  lemma StagingLoads(file: Option<string>)
    ensures Loader.Load(NO_OPTIONS, STAGING, file, NO_CLOUD) == Loader.Ok(STAGING)
  {
    hide Loader.ParseEnv, Loader.Collect, Loader.Flatten;
    assert Loader.Get(STAGING, "APP_STAGE") == Some("staging");
    assert Loader.Get(STAGING, "CONFIG_SSM_PREFIX") == None && Loader.Get(STAGING, "APP_CONFIG_SECRET_ID") == None;
    assert map[] + map[] + map[] + STAGING + map["APP_STAGE" := "staging"] == STAGING;
  }

  lemma OriginParses()
    ensures Parse(Origins, Some("o"), HOST) == Fine(Some(List(["o"])))
  {
    assert !IsSpace('o');
    hide IsSpace;
    SplitNothing("o", ',');
    TrimTrims("o");
    hide Trim, Split;
    assert Clean(["o"][1..]) == [];
  }

  lemma SecretParses()
    ensures Parse(Line(AtLeast(32), false, DEFAULT_SECRET), Some(SECRET), HOST) == Fine(Some(Str(SECRET)))
    ensures SECRET != DEFAULT_SECRET
  {
    assert |SECRET| == 32;
    hide Units;
    assert SECRET[0] != DEFAULT_SECRET[0];
  }

  lemma FieldsOfStaging(key: string)
    ensures Field(STAGING, key, HOST) == match key
      case "APP_STAGE" => Fine(Some(Str("staging")))
      case "JWT_SECRET" => Fine(Some(Str(SECRET)))
      case "CORS_ALLOWED_ORIGINS" => Fine(Some(List(["o"])))
      case "DATABASE_URL" => Fine(Some(Str("d")))
      case _ => Fine(Default(KindOf(key), HOST))
  {
    OriginParses();
    SecretParses();
    KindOfSecret();
    hide Units, Split, Clean, Trim, Default;
  }

  lemma UnsetNames()
    ensures KindOf("AWS_ACCESS_KEY_ID") == KindOf("AWS_SECRET_ACCESS_KEY") == NonEmpty
    ensures KindOf("SQS_QUEUE_URL") == NonEmpty
  {
    KindsOfSecrets();
  }

  lemma StagingParses()
    ensures FieldsParse(STAGING, HOST)
  {
    hide Field, Default;
    forall k ensures Field(STAGING, k, HOST).Fine? {
      FieldsOfStaging(k);
    }
  }

  lemma StagingField(key: string, value: Option<Value>)
    requires FieldsParse(STAGING, HOST) && Field(STAGING, key, HOST) == Fine(value)
    requires value.Some? ==> key in STAGING
    ensures var e := Fields(STAGING, HOST);
      if value.Some? then key in e && e[key] == value.value else key !in e
  {
    hide Field, KindOf;
  }

  lemma Unset(key: string)
    requires FieldsParse(STAGING, HOST) && KindOf(key) == NonEmpty && key !in STAGING
    ensures key !in Fields(STAGING, HOST)
  {
    hide KindOf;
    StagingField(key, None);
  }

  lemma StagingKeys()
    ensures "APP_STAGE" in STAGING && "JWT_SECRET" in STAGING
    ensures "CORS_ALLOWED_ORIGINS" in STAGING && "DATABASE_URL" in STAGING
    ensures "AWS_ACCESS_KEY_ID" !in STAGING && "AWS_SECRET_ACCESS_KEY" !in STAGING && "SQS_QUEUE_URL" !in STAGING
  {
  }

  lemma StagingIsValid()
    ensures Validate(STAGING, HOST).Some?
    ensures "SQS_QUEUE_URL" !in Validate(STAGING, HOST).value
  {
    hide Field, Fields, FieldsParse, KindOf, Default;
    StagingParses();
    StagingKeys();
    UnsetNames();
    Unset("AWS_ACCESS_KEY_ID");
    Unset("AWS_SECRET_ACCESS_KEY");
    Unset("SQS_QUEUE_URL");
    FieldsOfStaging("APP_STAGE");
    FieldsOfStaging("JWT_SECRET");
    FieldsOfStaging("CORS_ALLOWED_ORIGINS");
    FieldsOfStaging("DATABASE_URL");
    StagingField("APP_STAGE", Some(Str("staging")));
    StagingField("JWT_SECRET", Some(Str(SECRET)));
    StagingField("CORS_ALLOWED_ORIGINS", Some(List(["o"])));
    StagingField("DATABASE_URL", Some(Str("d")));
    SecretParses();
    RulesOf(Fields(STAGING, HOST));
  }

  lemma RulesOf(e: Env)
    requires "APP_STAGE" in e && e["APP_STAGE"] == Str("staging")
    requires "JWT_SECRET" in e && e["JWT_SECRET"] == Str(SECRET) && SECRET != DEFAULT_SECRET
    requires "CORS_ALLOWED_ORIGINS" in e && e["CORS_ALLOWED_ORIGINS"] == List(["o"])
    requires "DATABASE_URL" in e && e["DATABASE_URL"] == Str("d")
    requires "AWS_ACCESS_KEY_ID" !in e && "AWS_SECRET_ACCESS_KEY" !in e
    ensures RulesHold(e, HOST)
  {
    assert HOST.hostname("o") == "o";
  }

  /** In staging the loader ignores the .env file while the framework reads it: a
      name set only there is missing at start-up and present in the second parse. */
  lemma SecondParseCanDiffer()
    ensures var files := map["SQS_QUEUE_URL" := "q"];
      && Faithful(HOST)
      && Started(STAGING, Some("SQS_QUEUE_URL=q"), NO_CLOUD, HOST).Some?
      && var e := Started(STAGING, Some("SQS_QUEUE_URL=q"), NO_CLOUD, HOST).value;
      && "SQS_QUEUE_URL" !in e
      && Validate(files + WriteBack(STAGING, e, HOST), HOST) != Some(e)
  {
    hide Validate, Faithful, Loader.Load, KindOf, Show;
    var file, files := Some("SQS_QUEUE_URL=q"), map["SQS_QUEUE_URL" := "q"];
    SomeRuntimeIsFaithful();
    StagingLoads(file);
    StagingIsValid();
    UnsetNames();
    var e := Started(STAGING, file, NO_CLOUD, HOST).value;
    SecondReaderSeesTheSame(STAGING, file, NO_CLOUD, files, HOST);
    assert SaysMore(files, WriteBack(STAGING, e, HOST), "SQS_QUEUE_URL");
  }
}
