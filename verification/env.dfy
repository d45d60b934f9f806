/** Configuration from the environment (src/config/env.ts). `process.env` is a map
    from variable names to strings; `dotenv` loading is not modelled. */
module Env {
  import opened Wrappers
  import opened Strings

  const MISSING_PREFIX: string := "Missing required environment variable: "

  /** A JavaScript number as `parseInt` can produce it: an integer or `NaN`. */
  datatype Num = Int(value: int) | NaN

  predicate IsDigit(c: char) {
    '0' <= c <= '9'
  }

  predicate AllDigits(s: string) {
    forall i :: 0 <= i < |s| ==> IsDigit(s[i])
  }

  /** The longest prefix of decimal digits. */
  function DigitPrefix(s: string): (r: string)
    ensures |r| <= |s| && r == s[..|r|]
    ensures AllDigits(r)
    ensures |r| < |s| ==> !IsDigit(s[|r|])
    decreases |s|
  {
    if |s| == 0 || !IsDigit(s[0]) then "" else [s[0]] + DigitPrefix(s[1..])
  }

  /** The value of a digit string, most significant digit first. */
  function DigitsValue(ds: string): (n: nat)
    requires AllDigits(ds)
    decreases |ds|
  {
    if |ds| == 0 then 0 else 10 * DigitsValue(ds[..|ds| - 1]) + (ds[|ds| - 1] as int - '0' as int)
  }

  /** The text after one optional leading sign. */
  function AfterSign(t: string): (u: string)
    ensures |t| > 0 && (t[0] == '-' || t[0] == '+') ==> u == t[1..]
    ensures !(|t| > 0 && (t[0] == '-' || t[0] == '+')) ==> u == t
  {
    if |t| > 0 && (t[0] == '-' || t[0] == '+') then t[1..] else t
  }

  /** `parseInt(s, 10)`: leading whitespace skipped, one optional sign, then the
      longest run of digits; `NaN` when there is none. */
  function ParseInt(s: string): (r: Num)
    ensures r.NaN? <==> var u := AfterSign(TrimStart(s)); |u| == 0 || !IsDigit(u[0])
    ensures r.Int? ==> var t := TrimStart(s);
      r.value == (if t[0] == '-' then -1 else 1) * DigitsValue(DigitPrefix(AfterSign(t)))
  {
    var t := TrimStart(s);
    var ds := DigitPrefix(AfterSign(t));
    var magnitude: int := DigitsValue(ds);
    if |ds| == 0 then NaN
    else Int(if t[0] == '-' then -magnitude else magnitude)
  }

  lemma {:induction false} DigitPrefixOfDigits(ds: string, tail: string)
    requires AllDigits(ds)
    requires |tail| == 0 || !IsDigit(tail[0])
    ensures DigitPrefix(ds + tail) == ds
    decreases |ds|
  {
    if |ds| == 0 {
      assert ds + tail == tail;
    } else {
      assert (ds + tail)[1..] == ds[1..] + tail;
      DigitPrefixOfDigits(ds[1..], tail);
    }
  }

  /** Digits read back as the number they render. */
  lemma {:induction false} DigitsValueOfNatToString(n: nat)
    ensures DigitsValue(NatToString(n)) == n
    decreases n
  {
    var s := NatToString(n);
    if n >= 10 {
      DigitsValueOfNatToString(n / 10);
      assert s[..|s| - 1] == NatToString(n / 10);
    }
  }

  /** `parseInt` reads a digit run followed by anything that is not a digit. */
  lemma ParseIntOfDigits(ds: string, tail: string)
    requires |ds| > 0 && AllDigits(ds)
    requires |tail| == 0 || !IsDigit(tail[0])
    ensures ParseInt(ds + tail) == Int(DigitsValue(ds))
  {
    var s := ds + tail;
    assert s[0] == ds[0];
    assert !IsJsWhitespace(s[0]);
    assert TrimStart(s) == s;
    assert AfterSign(s) == s;
    DigitPrefixOfDigits(ds, tail);
  }

  /** The decimal digit text of any integer, read by `parseInt(s, 10)`, gives the integer back. */
  lemma ParseIntRoundTrip(n: int)
    ensures ParseInt(IntToString(n)) == Int(n)
  {
    if n >= 0 {
      var ds := NatToString(n);
      DigitsValueOfNatToString(n);
      assert ds + "" == ds;
      ParseIntOfDigits(ds, "");
    } else {
      NegativeRoundTrip(-n);
    }
  }

  lemma NegativeRoundTrip(m: nat)
    requires m > 0
    ensures ParseInt("-" + NatToString(m)) == Int(0 - m)
  {
    var ds := NatToString(m);
    var s := "-" + ds;
    DigitsValueOfNatToString(m);
    assert ds + "" == ds;
    DigitPrefixOfDigits(ds, "");
    assert !IsJsWhitespace(s[0]);
    assert TrimStart(s) == s;
    assert s[1..] == ds;
    assert AfterSign(s) == ds;
  }

  /** `getEnvVar(key, defaultValue)`: the variable unless missing or empty, then the
      default unless missing or empty, else the "missing" error. */
  function GetEnvVar(env: map<string, string>, key: string, default: Option<string>): (r: Result<string>)
    ensures r.Success? <==> (key in env && env[key] != "") || (default.Some? && default.value != "")
    ensures r.Success? ==> r.value != ""
    ensures key in env && env[key] != "" ==> r == Success(env[key])
    ensures !(key in env && env[key] != "") && r.Success? ==> r.value == default.value
    ensures r.Failure? ==> r.error == MISSING_PREFIX + key
  {
    var value := if key in env && env[key] != "" then Some(env[key]) else default;
    if value.None? || value.value == "" then Failure(MISSING_PREFIX + key) else Success(value.value)
  }

  /** `getEnvNumber(key, defaultValue)`: the default for a missing or empty variable,
      `parseInt` of it otherwise. */
  function GetEnvNumber(env: map<string, string>, key: string, default: int): (r: Num)
    ensures !(key in env && env[key] != "") ==> r == Int(default)
    ensures key in env && env[key] != "" ==> r == ParseInt(env[key])
  {
    if key in env && env[key] != "" then ParseInt(env[key]) else Int(default)
  }

  /** A number written as decimal digit text is read back by `getEnvNumber`. */
  lemma GetEnvNumberRoundTrip(env: map<string, string>, key: string, default: int, n: int)
    requires key in env && env[key] == IntToString(n)
    ensures GetEnvNumber(env, key, default) == Int(n)
  {
    ParseIntRoundTrip(n);
  }

  const MONGODB_URI: string := "MONGODB_URI"
  const GROQ_API_KEY: string := "GROQ_API_KEY"
  const GROQ_MODEL: string := "GROQ_MODEL"
  const FACEBOOK_PAGE_ACCESS_TOKEN: string := "FACEBOOK_PAGE_ACCESS_TOKEN"
  const FACEBOOK_PAGE_ID: string := "FACEBOOK_PAGE_ID"
  const POSTS_PER_DAY: string := "POSTS_PER_DAY"
  const MIN_DELAY_MINUTES: string := "MIN_DELAY_MINUTES"
  const MAX_DELAY_MINUTES: string := "MAX_DELAY_MINUTES"
  const NODE_ENV: string := "NODE_ENV"
  const LOG_LEVEL: string := "LOG_LEVEL"
  const IMAGE_OUTPUT_DIR: string := "IMAGE_OUTPUT_DIR"
  const BACKGROUND_DIR: string := "BACKGROUND_DIR"

  const DEFAULT_GROQ_MODEL: string := "llama-3.1-70b-versatile"
  const DEFAULT_NODE_ENV: string := "development"
  const DEFAULT_LOG_LEVEL: string := "info"
  const DEFAULT_IMAGE_OUTPUT_DIR: string := "./output/images"
  const DEFAULT_BACKGROUND_DIR: string := "./assets/backgrounds"
  const DEFAULT_POSTS_PER_DAY: int := 3
  const DEFAULT_MIN_DELAY_MINUTES: int := 60
  const DEFAULT_MAX_DELAY_MINUTES: int := 180

  /** The variables without a default, in the order the config object reads them. */
  const REQUIRED_KEYS: seq<string> := [MONGODB_URI, GROQ_API_KEY, FACEBOOK_PAGE_ACCESS_TOKEN, FACEBOOK_PAGE_ID]

  /** The `EnvConfig` object. */
  datatype EnvConfig = EnvConfig(
    mongodbUri: string, groqApiKey: string, groqModel: string,
    facebookPageAccessToken: string, facebookPageId: string,
    postsPerDay: Num, minDelayMinutes: Num, maxDelayMinutes: Num,
    nodeEnv: string, logLevel: string, imageOutputDir: string, backgroundDir: string)

  predicate IsSet(env: map<string, string>, key: string) {
    key in env && env[key] != ""
  }

  /** A variable with a default that is not empty never throws. */
  function Defaulted(env: map<string, string>, key: string, default: string): (r: string)
    requires default != ""
    ensures r != ""
    ensures r == if IsSet(env, key) then env[key] else default
  {
    GetEnvVar(env, key, Some(default)).value
  }

  /** The module-level `env` object: each field in order, the first missing required
      variable ending the load with its error. */
  function LoadEnv(env: map<string, string>): (r: Result<EnvConfig>)
    ensures r.Success? <==> forall k :: 0 <= k < |REQUIRED_KEYS| ==> IsSet(env, REQUIRED_KEYS[k])
    ensures r.Failure? ==>
      exists k :: && 0 <= k < |REQUIRED_KEYS| && !IsSet(env, REQUIRED_KEYS[k])
                  && (forall j :: 0 <= j < k ==> IsSet(env, REQUIRED_KEYS[j]))
                  && r.error == MISSING_PREFIX + REQUIRED_KEYS[k]
    ensures r.Success? ==> IsSet(env, MONGODB_URI) && r.value.mongodbUri == env[MONGODB_URI]
    ensures r.Success? ==> IsSet(env, FACEBOOK_PAGE_ID) && r.value.facebookPageId == env[FACEBOOK_PAGE_ID]
    ensures r.Success? ==> r.value.groqModel == (if IsSet(env, GROQ_MODEL) then env[GROQ_MODEL] else DEFAULT_GROQ_MODEL)
    ensures r.Success? ==> r.value.logLevel == (if IsSet(env, LOG_LEVEL) then env[LOG_LEVEL] else DEFAULT_LOG_LEVEL)
    ensures r.Success? ==>
      r.value.postsPerDay == (if IsSet(env, POSTS_PER_DAY) then ParseInt(env[POSTS_PER_DAY]) else Int(DEFAULT_POSTS_PER_DAY))
    ensures r.Success? ==> IsSet(env, GROQ_API_KEY) && r.value.groqApiKey == env[GROQ_API_KEY]
    ensures r.Success? ==>
      IsSet(env, FACEBOOK_PAGE_ACCESS_TOKEN) && r.value.facebookPageAccessToken == env[FACEBOOK_PAGE_ACCESS_TOKEN]
    ensures r.Success? ==>
      r.value.minDelayMinutes == (if IsSet(env, MIN_DELAY_MINUTES) then ParseInt(env[MIN_DELAY_MINUTES]) else Int(DEFAULT_MIN_DELAY_MINUTES))
    ensures r.Success? ==>
      r.value.maxDelayMinutes == (if IsSet(env, MAX_DELAY_MINUTES) then ParseInt(env[MAX_DELAY_MINUTES]) else Int(DEFAULT_MAX_DELAY_MINUTES))
    ensures r.Success? ==> r.value.nodeEnv == (if IsSet(env, NODE_ENV) then env[NODE_ENV] else DEFAULT_NODE_ENV)
    ensures r.Success? ==>
      r.value.imageOutputDir == (if IsSet(env, IMAGE_OUTPUT_DIR) then env[IMAGE_OUTPUT_DIR] else DEFAULT_IMAGE_OUTPUT_DIR)
    ensures r.Success? ==>
      r.value.backgroundDir == (if IsSet(env, BACKGROUND_DIR) then env[BACKGROUND_DIR] else DEFAULT_BACKGROUND_DIR)
  {
    assert REQUIRED_KEYS[0] == MONGODB_URI && REQUIRED_KEYS[1] == GROQ_API_KEY;
    assert REQUIRED_KEYS[2] == FACEBOOK_PAGE_ACCESS_TOKEN && REQUIRED_KEYS[3] == FACEBOOK_PAGE_ID;
    var mongodbUri :- GetEnvVar(env, MONGODB_URI, None);
    var groqApiKey :- GetEnvVar(env, GROQ_API_KEY, None);
    var groqModel := Defaulted(env, GROQ_MODEL, DEFAULT_GROQ_MODEL);
    var facebookPageAccessToken :- GetEnvVar(env, FACEBOOK_PAGE_ACCESS_TOKEN, None);
    var facebookPageId :- GetEnvVar(env, FACEBOOK_PAGE_ID, None);
    Success(EnvConfig(
      mongodbUri, groqApiKey, groqModel, facebookPageAccessToken, facebookPageId,
      GetEnvNumber(env, POSTS_PER_DAY, DEFAULT_POSTS_PER_DAY),
      GetEnvNumber(env, MIN_DELAY_MINUTES, DEFAULT_MIN_DELAY_MINUTES),
      GetEnvNumber(env, MAX_DELAY_MINUTES, DEFAULT_MAX_DELAY_MINUTES),
      Defaulted(env, NODE_ENV, DEFAULT_NODE_ENV),
      Defaulted(env, LOG_LEVEL, DEFAULT_LOG_LEVEL),
      Defaulted(env, IMAGE_OUTPUT_DIR, DEFAULT_IMAGE_OUTPUT_DIR),
      Defaulted(env, BACKGROUND_DIR, DEFAULT_BACKGROUND_DIR)))
  }

  /** With only the four secrets set, every other field takes its default. */
  lemma LoadEnvDefaults(env: map<string, string>)
    requires forall k :: 0 <= k < |REQUIRED_KEYS| ==> IsSet(env, REQUIRED_KEYS[k])
    requires env.Keys == {MONGODB_URI, GROQ_API_KEY, FACEBOOK_PAGE_ACCESS_TOKEN, FACEBOOK_PAGE_ID}
    ensures LoadEnv(env).Success?
    ensures var c := LoadEnv(env).value;
      && c.groqModel == DEFAULT_GROQ_MODEL && c.nodeEnv == DEFAULT_NODE_ENV && c.logLevel == DEFAULT_LOG_LEVEL
      && c.imageOutputDir == DEFAULT_IMAGE_OUTPUT_DIR && c.backgroundDir == DEFAULT_BACKGROUND_DIR
      && c.postsPerDay == Int(3) && c.minDelayMinutes == Int(60) && c.maxDelayMinutes == Int(180)
  {
    assert GROQ_MODEL !in env && NODE_ENV !in env && LOG_LEVEL !in env;
    assert IMAGE_OUTPUT_DIR !in env && BACKGROUND_DIR !in env;
    assert POSTS_PER_DAY !in env && MIN_DELAY_MINUTES !in env && MAX_DELAY_MINUTES !in env;
  }
}
