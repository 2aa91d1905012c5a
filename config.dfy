/**
 * The site configuration `INNVEST_CONFIG`: the environment classification of
 * the page's hostname, the default settings, and the development overrides
 * applied once the object is built.
 */
module Config {

  datatype Environment = Development | Staging | Production

  /** `sub` occurs in `s` starting at index `i`. */
  ghost predicate OccursAt(sub: string, s: string, i: int) {
    0 <= i && i + |sub| <= |s| && s[i..i + |sub|] == sub
  }

  /** `sub` occurs in `s` at some index: what `String.prototype.includes`
      answers. */
  ghost predicate Occurs(sub: string, s: string) {
    exists i :: OccursAt(sub, s, i)
  }

  predicate StartsWith(s: string, prefix: string) {
    |prefix| <= |s| && s[..|prefix|] == prefix
  }

  /** An occurrence is at the front or in the rest after the first character. */
  lemma OccursFront(sub: string, s: string)
    ensures Occurs(sub, s) <==> StartsWith(s, sub) || (|s| > 0 && Occurs(sub, s[1..]))
  {
    if StartsWith(s, sub) {
      assert OccursAt(sub, s, 0);
    }
    if |s| > 0 && Occurs(sub, s[1..]) {
      var i :| OccursAt(sub, s[1..], i);
      assert s[i + 1..i + 1 + |sub|] == s[1..][i..i + |sub|];
      assert OccursAt(sub, s, i + 1);
    }
    if Occurs(sub, s) {
      var i :| OccursAt(sub, s, i);
      if i > 0 {
        assert s[1..][i - 1..i - 1 + |sub|] == s[i..i + |sub|];
        assert OccursAt(sub, s[1..], i - 1);
      }
    }
  }

  /** `s.includes(sub)`, searching from the front. */
  function Includes(s: string, sub: string): (r: bool)
    ensures r <==> Occurs(sub, s)
    decreases |s|
  {
    OccursFront(sub, s);
    if StartsWith(s, sub) then true
    else if |s| == 0 then false
    else Includes(s[1..], sub)
  }

  /** A character of `sub` that `s` lacks rules out every occurrence. */
  lemma AbsentCharNoOccurrence(sub: string, s: string, j: int)
    requires 0 <= j < |sub| && sub[j] !in s
    ensures !Occurs(sub, s)
  {
    forall i | 0 <= i && i + |sub| <= |s| ensures !OccursAt(sub, s, i) {
      assert s[i..i + |sub|][j] == s[i + j];
      assert s[i + j] in s;
    }
  }

  /** The `ENVIRONMENT` field: exact matches first, then substring matches. */
  function Classify(hostname: string): (e: Environment)
    ensures e == Development <==> hostname == "localhost" || hostname == "127.0.0.1"
    ensures e == Staging <==>
      hostname != "localhost" && hostname != "127.0.0.1"
      && (Occurs("staging", hostname) || Occurs("dev", hostname))
    ensures e == Production <==>
      hostname != "localhost" && hostname != "127.0.0.1"
      && !Occurs("staging", hostname) && !Occurs("dev", hostname)
  {
    if hostname == "localhost" || hostname == "127.0.0.1" then Development
    else if Includes(hostname, "staging") || Includes(hostname, "dev") then Staging
    else Production
  }

  datatype ApiSettings = ApiSettings(baseUrl: string, timeout: nat, retryAttempts: nat, retryDelay: nat)

  datatype FeatureFlags = FeatureFlags(analytics: bool, cookieNotice: bool, formValidation: bool, debugMode: bool)

  datatype ButtonStates = ButtonStates(idle: string, loading: string, success: string, error: string)

  datatype UiSettings = UiSettings(formSuccessMessage: string, formErrorMessage: string, buttonStates: ButtonStates)

  datatype AnalyticsIds = AnalyticsIds(googleAnalyticsId: string, hotjarId: string)

  const DEFAULT_TIMEOUT: nat := 10000
  const DEVELOPMENT_TIMEOUT: nat := 5000

  const DEFAULT_API := ApiSettings(
    "https://mzkdnfb43hmilf2gfsbg6d5lgq0jajdu.lambda-url.us-east-1.on.aws/",
    DEFAULT_TIMEOUT, 2, 1000)

  const DEFAULT_FEATURES := FeatureFlags(true, true, true, false)

  const DEFAULT_UI := UiSettings(
    "Thank you for joining our waitlist! We will be in touch soon.",
    "Your information was saved locally, but there was an issue connecting to our servers. We will still contact you!",
    ButtonStates("SEND", "SENDING...", "SENT", "TRY AGAIN"))

  const DEFAULT_ANALYTICS := AnalyticsIds("", "")

  /** The configuration object; only the development overrides change it
      after it is built. */
  class Settings {
    var api: ApiSettings
    var environment: Environment
    var features: FeatureFlags
    var ui: UiSettings
    var analytics: AnalyticsIds

    /** The object literal, with the environment resolved from `hostname`. */
    constructor (hostname: string)
      ensures api == DEFAULT_API && features == DEFAULT_FEATURES
      ensures ui == DEFAULT_UI && analytics == DEFAULT_ANALYTICS
      ensures environment == Classify(hostname)
    {
      api := DEFAULT_API;
      environment := Classify(hostname);
      features := DEFAULT_FEATURES;
      ui := DEFAULT_UI;
      analytics := DEFAULT_ANALYTICS;
    }

    /** In development, debug mode on and the shorter timeout; nothing else
        changes, and outside development nothing changes at all. */
    method ApplyEnvironmentOverrides()
      modifies this
      ensures environment == old(environment) && ui == old(ui) && analytics == old(analytics)
      ensures api.baseUrl == old(api.baseUrl) && api.retryAttempts == old(api.retryAttempts)
      ensures api.retryDelay == old(api.retryDelay)
      ensures features.analytics == old(features.analytics)
      ensures features.cookieNotice == old(features.cookieNotice)
      ensures features.formValidation == old(features.formValidation)
      ensures environment == Development ==> features.debugMode && api.timeout == DEVELOPMENT_TIMEOUT
      ensures environment != Development ==> features == old(features) && api == old(api)
    {
      if environment == Development {
        features := features.(debugMode := true);
        api := api.(timeout := DEVELOPMENT_TIMEOUT);
      }
    }
  }

  /** Loading `config.js`: build the object, then apply the overrides. */
  method Load(hostname: string) returns (c: Settings)
    ensures fresh(c)
    ensures c.environment == Classify(hostname)
    ensures c.features.debugMode <==> c.environment == Development
    ensures c.api.timeout == if c.environment == Development then DEVELOPMENT_TIMEOUT else DEFAULT_TIMEOUT
    ensures c.api.baseUrl == DEFAULT_API.baseUrl && c.api.retryAttempts == 2 && c.api.retryDelay == 1000
    ensures c.features.analytics && c.features.cookieNotice && c.features.formValidation
    ensures c.ui == DEFAULT_UI && c.analytics == DEFAULT_ANALYTICS
  {
    c := new Settings(hostname);
    c.ApplyEnvironmentOverrides();
  }

  lemma ExamplesDevelopment()
    ensures Classify("localhost") == Development
    ensures Classify("127.0.0.1") == Development
  {
  }

  /** `dev` is a plain substring test: `devices.com` is staging. */
  lemma ExamplesStaging()
    ensures Classify("staging.innvestai.com") == Staging
    ensures Classify("devices.com") == Staging
    ensures Classify("localhost.dev") == Staging
  {
    assert OccursAt("staging", "staging.innvestai.com", 0);
    assert OccursAt("dev", "devices.com", 0);
    assert OccursAt("dev", "localhost.dev", 10);
  }

  lemma ExamplesProduction()
    ensures Classify("innvestai.com") == Production
    ensures Classify("127.0.0.2") == Production
  {
    AbsentCharNoOccurrence("staging", "innvestai.com", 6);
    AbsentCharNoOccurrence("dev", "innvestai.com", 0);
    AbsentCharNoOccurrence("staging", "127.0.0.2", 0);
    AbsentCharNoOccurrence("dev", "127.0.0.2", 0);
  }
}
