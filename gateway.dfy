/**
 * The gateway's configuration check and start-up: every configured handler is built and
 * registered with the processor under its name before it is started.
 */
module Gateway {
  import opened Wrappers
  import opened Retry
  import opened Rules
  import opened Modem
  import opened Email
  import opened Api
  import opened Multipart
  import opened Processor

  /** The parsed configuration file; None for a top-level key that is absent. */
  datatype RawConfig = RawConfig(
    modems: Option<seq<ModemConfig>>,
    emailProviders: Option<seq<EmailConfig>>,
    apiProviders: Option<seq<ApiConfig>>,
    rules: Option<seq<Rule>>,
    retrySettings: Option<RetrySettings>)

  /** The configuration the gateway keeps once the check has passed. */
  datatype Settings = Settings(
    modems: seq<ModemConfig>,
    emails: seq<EmailConfig>,
    apis: seq<ApiConfig>,
    rules: seq<Rule>,
    retry: RetrySettings)

  /** The ValueError raised for the first section holding an incomplete entry. */
  datatype ConfigError = MissingModemFields | MissingEmailFields | MissingApiFields

  /** `name`, `port` and `baudrate` are present. */
  predicate ModemComplete(m: ModemConfig) {
    m.name.Some? && m.port.Some? && m.baudrate.Some?
  }

  /** `name`, `server`, `port`, `user`, `password` and `sender` are present. */
  predicate EmailComplete(e: EmailConfig) {
    e.name.Some? && e.server.Some? && e.port.Some? && e.user.Some? && e.password.Some? && e.sender.Some?
  }

  /** `name`, `method` and `endpoint` are present. */
  predicate ApiComplete(a: ApiConfig) {
    a.name.Some? && a.httpMethod.Some? && a.endpoint.Some?
  }

  predicate SettingsComplete(s: Settings) {
    (forall i :: 0 <= i < |s.modems| ==> ModemComplete(s.modems[i])) &&
    (forall i :: 0 <= i < |s.emails| ==> EmailComplete(s.emails[i])) &&
    (forall i :: 0 <= i < |s.apis| ==> ApiComplete(s.apis[i]))
  }

  /** Missing sections and rules are empty lists; missing retry settings are an empty object. */
  function WithDefaults(raw: RawConfig): Settings {
    Settings(raw.modems.GetOr([]), raw.emailProviders.GetOr([]), raw.apiProviders.GetOr([]),
             raw.rules.GetOr([]), raw.retrySettings.GetOr(RetrySettings(None, None)))
  }

  /**
   * `load_config`: modems, then email providers, then API providers are checked in order, and
   * the first incomplete entry raises the error of its section.
   */
  method LoadConfig(raw: RawConfig) returns (r: Result<Settings, ConfigError>)
    ensures var s := WithDefaults(raw);
      r == if exists i :: 0 <= i < |s.modems| && !ModemComplete(s.modems[i]) then Failure(MissingModemFields)
           else if exists i :: 0 <= i < |s.emails| && !EmailComplete(s.emails[i]) then Failure(MissingEmailFields)
           else if exists i :: 0 <= i < |s.apis| && !ApiComplete(s.apis[i]) then Failure(MissingApiFields)
           else Success(s)
    ensures r.Success? ==> SettingsComplete(r.value)
  {
    var modems := raw.modems.GetOr([]);
    var i := 0;
    while i < |modems|
      invariant 0 <= i <= |modems|
      invariant forall k :: 0 <= k < i ==> ModemComplete(modems[k])
    {
      if !ModemComplete(modems[i]) {
        return Failure(MissingModemFields);
      }
      i := i + 1;
    }
    var emails := raw.emailProviders.GetOr([]);
    i := 0;
    while i < |emails|
      invariant 0 <= i <= |emails|
      invariant forall k :: 0 <= k < i ==> EmailComplete(emails[k])
    {
      if !EmailComplete(emails[i]) {
        return Failure(MissingEmailFields);
      }
      i := i + 1;
    }
    var apis := raw.apiProviders.GetOr([]);
    i := 0;
    while i < |apis|
      invariant 0 <= i <= |apis|
      invariant forall k :: 0 <= k < i ==> ApiComplete(apis[k])
    {
      if !ApiComplete(apis[i]) {
        return Failure(MissingApiFields);
      }
      i := i + 1;
    }
    return Success(WithDefaults(raw));
  }

  /** The names of the first entries, as the processor registers them. */
  function ModemNames(ms: seq<ModemConfig>): set<string> {
    if ms == [] then {} else ModemNames(ms[..|ms| - 1]) + {ms[|ms| - 1].name.GetOr(UnnamedModem)}
  }

  lemma ModemNamesStep(ms: seq<ModemConfig>, i: nat)
    requires i < |ms|
    ensures ModemNames(ms[..i + 1]) == ModemNames(ms[..i]) + {ms[i].name.GetOr(UnnamedModem)}
  {
    assert ms[..i + 1][..i] == ms[..i];
  }

  function EmailNames(es: seq<EmailConfig>): set<string>
    requires forall i :: 0 <= i < |es| ==> EmailComplete(es[i])
  {
    if es == [] then {}
    else
      assert forall i :: 0 <= i < |es| - 1 ==> es[..|es| - 1][i] == es[i];
      assert EmailComplete(es[|es| - 1]);
      EmailNames(es[..|es| - 1]) + {es[|es| - 1].name.value}
  }

  function ApiNames(as_: seq<ApiConfig>): set<string>
    requires forall i :: 0 <= i < |as_| ==> ApiComplete(as_[i])
  {
    if as_ == [] then {}
    else
      assert forall i :: 0 <= i < |as_| - 1 ==> as_[..|as_| - 1][i] == as_[i];
      assert ApiComplete(as_[|as_| - 1]);
      ApiNames(as_[..|as_| - 1]) + {as_[|as_| - 1].name.value}
  }

  lemma EmailNamesStep(es: seq<EmailConfig>, i: nat)
    requires i < |es|
    requires forall j :: 0 <= j < |es| ==> EmailComplete(es[j])
    ensures EmailComplete(es[i])
    ensures EmailNames(es[..i + 1]) == EmailNames(es[..i]) + {es[i].name.value}
  {
    assert es[..i + 1][..i] == es[..i];
  }

  lemma ApiNamesStep(as_: seq<ApiConfig>, i: nat)
    requires i < |as_|
    requires forall j :: 0 <= j < |as_| ==> ApiComplete(as_[j])
    ensures ApiComplete(as_[i])
    ensures ApiNames(as_[..i + 1]) == ApiNames(as_[..i]) + {as_[i].name.value}
  {
    assert as_[..i + 1][..i] == as_[..i];
  }

  /** What `start` of a complete modem reports: connected iff it has a `pin` key and its link comes up. */
  function ModemStartResult(m: ModemConfig, up: bool): StartResult {
    if m.pin.Some? && up then Started else ConnectFailed
  }

  /** `reports` are the start reports of the first modems, in order. */
  predicate StartReports(reports: seq<StartResult>, ms: seq<ModemConfig>, linkUp: nat -> bool) {
    |reports| <= |ms| && forall i :: 0 <= i < |reports| ==> reports[i] == ModemStartResult(ms[i], linkUp(i))
  }

  lemma StartReportsStep(reports: seq<StartResult>, ms: seq<ModemConfig>, linkUp: nat -> bool, r: StartResult)
    requires StartReports(reports, ms, linkUp) && |reports| < |ms|
    requires r == ModemStartResult(ms[|reports|], linkUp(|reports|))
    ensures StartReports(reports + [r], ms, linkUp)
  {
  }

  class SmsGateway {
    const settings: Settings
    const processor: SmsProcessor
    var modemHandlers: map<string, ModemHandler>
    var emailHandlers: map<string, EmailHandler>
    var apiHandlers: map<string, ApiHandler>

    /** `stored` is the `multipart_sms` table as the database file holds it from earlier runs. */
    constructor (settings: Settings, stored: Table)
      requires TableValid(stored)
      ensures this.settings == settings && fresh(processor)
      ensures processor.rules == settings.rules && processor.multipart == stored
      ensures processor.modemHandlers == {} && processor.emailHandlers == {} && processor.apiHandlers == {}
      ensures processor.Valid()
      ensures modemHandlers == map[] && emailHandlers == map[] && apiHandlers == map[]
    {
      this.settings := settings;
      processor := new SmsProcessor(settings.rules, stored);
      modemHandlers, emailHandlers, apiHandlers := map[], map[], map[];
    }

    /**
     * `start`: each modem, then each email provider, then each API provider is built,
     * registered and started; `linkUp(i)` is whether modem i connects. Whatever a modem's
     * start reports, start-up goes on with the next handler; `started` lists the modems' reports.
     */
    method Start(linkUp: nat -> bool) returns (started: seq<StartResult>)
      requires SettingsComplete(settings)
      modifies this, processor
      ensures |started| == |settings.modems|
      ensures forall i :: 0 <= i < |started| ==> started[i] == ModemStartResult(settings.modems[i], linkUp(i))
      ensures processor.modemHandlers == old(processor.modemHandlers) + ModemNames(settings.modems)
      ensures processor.emailHandlers == old(processor.emailHandlers) + EmailNames(settings.emails)
      ensures processor.apiHandlers == old(processor.apiHandlers) + ApiNames(settings.apis)
      ensures modemHandlers.Keys == old(modemHandlers.Keys) + ModemNames(settings.modems)
      ensures emailHandlers.Keys == old(emailHandlers.Keys) + EmailNames(settings.emails)
      ensures apiHandlers.Keys == old(apiHandlers.Keys) + ApiNames(settings.apis)
      ensures processor.multipart == old(processor.multipart) && processor.saved == old(processor.saved)
      ensures processor.outbox == old(processor.outbox)
    {
      started := StartModems(linkUp);
      StartEmails();
      StartApis();
    }

    /** The modem loop of `start`. */
    method StartModems(linkUp: nat -> bool) returns (started: seq<StartResult>)
      requires forall i :: 0 <= i < |settings.modems| ==> ModemComplete(settings.modems[i])
      modifies this, processor
      ensures |started| == |settings.modems|
      ensures forall i :: 0 <= i < |started| ==> started[i] == ModemStartResult(settings.modems[i], linkUp(i))
      ensures processor.modemHandlers == old(processor.modemHandlers) + ModemNames(settings.modems)
      ensures modemHandlers.Keys == old(modemHandlers.Keys) + ModemNames(settings.modems)
      ensures processor.emailHandlers == old(processor.emailHandlers) && processor.apiHandlers == old(processor.apiHandlers)
      ensures emailHandlers == old(emailHandlers) && apiHandlers == old(apiHandlers)
      ensures processor.multipart == old(processor.multipart) && processor.saved == old(processor.saved)
      ensures processor.outbox == old(processor.outbox)
    {
      var modems := settings.modems;
      started := [];
      var i := 0;
      while i < |modems|
        invariant 0 <= i <= |modems|
        invariant |started| == i && StartReports(started, modems, linkUp)
        invariant processor.modemHandlers == old(processor.modemHandlers) + ModemNames(modems[..i])
        invariant modemHandlers.Keys == old(modemHandlers.Keys) + ModemNames(modems[..i])
        invariant processor.emailHandlers == old(processor.emailHandlers) && processor.apiHandlers == old(processor.apiHandlers)
        invariant emailHandlers == old(emailHandlers) && apiHandlers == old(apiHandlers)
        invariant processor.multipart == old(processor.multipart) && processor.saved == old(processor.saved)
        invariant processor.outbox == old(processor.outbox)
      {
        var conf := modems[i];
        assert ModemComplete(conf);
        ModemNamesStep(modems, i);
        var r := StartModem(conf, linkUp(i));
        StartReportsStep(started, modems, linkUp, r);
        started := started + [r];
        i := i + 1;
      }
      assert modems[..i] == modems;
    }

    /** One modem of `start`: built, recorded under its name, registered, then started. */
    method StartModem(conf: ModemConfig, up: bool) returns (started: StartResult)
      requires ModemComplete(conf)
      modifies this, processor
      ensures started == ModemStartResult(conf, up)
      ensures processor.modemHandlers == old(processor.modemHandlers) + {conf.name.value}
      ensures modemHandlers.Keys == old(modemHandlers.Keys) + {conf.name.value}
      ensures processor.emailHandlers == old(processor.emailHandlers) && processor.apiHandlers == old(processor.apiHandlers)
      ensures emailHandlers == old(emailHandlers) && apiHandlers == old(apiHandlers)
      ensures processor.multipart == old(processor.multipart) && processor.saved == old(processor.saved)
      ensures processor.outbox == old(processor.outbox)
    {
      var handler := new ModemHandler(conf, settings.retry);
      modemHandlers := modemHandlers[conf.name.value := handler];
      processor.RegisterModem(conf.port.value, handler.name);
      started := handler.Start(up);
    }

    /** The email loop of `start`; an email handler's start only launches its worker. */
    method StartEmails()
      requires forall i :: 0 <= i < |settings.emails| ==> EmailComplete(settings.emails[i])
      modifies this, processor
      ensures processor.emailHandlers == old(processor.emailHandlers) + EmailNames(settings.emails)
      ensures emailHandlers.Keys == old(emailHandlers.Keys) + EmailNames(settings.emails)
      ensures processor.modemHandlers == old(processor.modemHandlers) && processor.apiHandlers == old(processor.apiHandlers)
      ensures modemHandlers == old(modemHandlers) && apiHandlers == old(apiHandlers)
      ensures processor.multipart == old(processor.multipart) && processor.saved == old(processor.saved)
      ensures processor.outbox == old(processor.outbox)
    {
      var emails := settings.emails;
      var i := 0;
      while i < |emails|
        invariant 0 <= i <= |emails|
        invariant processor.emailHandlers == old(processor.emailHandlers) + EmailNames(emails[..i])
        invariant emailHandlers.Keys == old(emailHandlers.Keys) + EmailNames(emails[..i])
        invariant processor.modemHandlers == old(processor.modemHandlers) && processor.apiHandlers == old(processor.apiHandlers)
        invariant modemHandlers == old(modemHandlers) && apiHandlers == old(apiHandlers)
        invariant processor.multipart == old(processor.multipart) && processor.saved == old(processor.saved)
        invariant processor.outbox == old(processor.outbox)
      {
        var conf := emails[i];
        var handler := new EmailHandler(conf, settings.retry);
        emailHandlers := emailHandlers[conf.name.value := handler];
        processor.RegisterEmail(conf.name.value);
        EmailNamesStep(emails, i);
        i := i + 1;
      }
      assert emails[..i] == emails;
    }

    /** The API loop of `start`; an API handler's start only launches its worker. */
    method StartApis()
      requires forall i :: 0 <= i < |settings.apis| ==> ApiComplete(settings.apis[i])
      modifies this, processor
      ensures processor.apiHandlers == old(processor.apiHandlers) + ApiNames(settings.apis)
      ensures apiHandlers.Keys == old(apiHandlers.Keys) + ApiNames(settings.apis)
      ensures processor.modemHandlers == old(processor.modemHandlers) && processor.emailHandlers == old(processor.emailHandlers)
      ensures modemHandlers == old(modemHandlers) && emailHandlers == old(emailHandlers)
      ensures processor.multipart == old(processor.multipart) && processor.saved == old(processor.saved)
      ensures processor.outbox == old(processor.outbox)
    {
      var apis := settings.apis;
      var i := 0;
      while i < |apis|
        invariant 0 <= i <= |apis|
        invariant processor.apiHandlers == old(processor.apiHandlers) + ApiNames(apis[..i])
        invariant apiHandlers.Keys == old(apiHandlers.Keys) + ApiNames(apis[..i])
        invariant processor.modemHandlers == old(processor.modemHandlers) && processor.emailHandlers == old(processor.emailHandlers)
        invariant modemHandlers == old(modemHandlers) && emailHandlers == old(emailHandlers)
        invariant processor.multipart == old(processor.multipart) && processor.saved == old(processor.saved)
        invariant processor.outbox == old(processor.outbox)
      {
        var conf := apis[i];
        var handler := new ApiHandler(conf, settings.retry);
        apiHandlers := apiHandlers[conf.name.value := handler];
        processor.RegisterApi(conf.name.value);
        ApiNamesStep(apis, i);
        i := i + 1;
      }
      assert apis[..i] == apis;
    }
  }
}
