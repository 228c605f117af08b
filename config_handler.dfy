/** The configuration: `config.yml` merged with the environment, in which
    environment variables take precedence; the validation of the required
    settings; and the cache of the loaded configuration and ticket panels.
    Reading and parsing the files is the outcome passed in; the YAML
    document is the record of the settings the merge reads. */
module ConfigHandler {
  import opened Wrappers
  import opened Types
  import opened EnvLoader
  import opened Strings

  // ---------------------------------------------------------------- the YAML document

  /** `features` of the YAML document; a missing block reads as all absent. */
  datatype YamlFeatures = YamlFeatures(
    aiResponses: Option<bool>, autoClose: Option<bool>, workingHours: Option<bool>,
    ticketReviews: Option<bool>, transcripts: Option<bool>, addons: Option<bool>)

  /** `automation` of the YAML document. The key read for the warning is
      `inactivity_warning`. */
  datatype YamlAutomation = YamlAutomation(
    inactivityTimeout: Option<int>, inactivityWarning: Option<int>, staffReminderTimeout: Option<int>,
    maxTicketsPerUser: Option<int>, ticketOverloadLimit: Option<int>)

  datatype YamlTranscripts = YamlTranscripts(
    format: Option<string>, sendToUser: Option<bool>, sendToStaffLog: Option<bool>, includeAttachments: Option<bool>)

  datatype YamlAi = YamlAi(
    enabled: Option<bool>, provider: Option<string>, apiKey: Option<string>, model: Option<string>,
    autoRespondDelay: Option<int>)

  datatype PriorityColors = PriorityColors(low: string, medium: string, high: string, urgent: string)

  datatype YamlConfig = YamlConfig(
    token: Option<string>, guildId: Option<string>, staffRoles: Option<seq<string>>,
    ticketCategoryId: Option<string>, feedbackChannelId: Option<string>,
    transcriptChannelId: Option<string>, logChannelId: Option<string>,
    botName: Option<string>, embedColor: Option<string>, footerText: Option<string>,
    thumbnailUrl: Option<string>, bannerUrl: Option<string>, language: Option<string>,
    features: YamlFeatures, automation: YamlAutomation, workingHours: Option<WorkingHours>,
    transcripts: YamlTranscripts, ai: YamlAi, priorityColors: Option<PriorityColors>,
    availableTags: Option<seq<string>>)

  const DefaultColors := PriorityColors("#00ff00", "#ffff00", "#ff8800", "#ff0000")

  const DefaultTags: seq<string> := ["Billing", "Technical", "Bug Report", "Feature Request", "Refund", "Other"]

  /** The document `createDefaultConfig` writes when `config.yml` is missing,
      as it reads back. */
  const DefaultYaml := YamlConfig(
    Some(""), Some(""), Some([]), Some(""), Some(""), Some(""), Some(""),
    Some("Support Bot"), Some("#5865F2"), Some("Support System \U{A9} 2025"), None, None, Some("en"),
    YamlFeatures(Some(false), Some(true), Some(false), Some(true), Some(true), Some(true)),
    YamlAutomation(Some(2880), Some(1440), Some(60), Some(3), Some(50)),
    None,
    YamlTranscripts(None, None, None, None),
    YamlAi(None, None, None, None, None),
    Some(DefaultColors), Some(DefaultTags))

  // ---------------------------------------------------------------- the merged configuration

  datatype Features = Features(
    aiResponses: bool, autoClose: bool, workingHours: bool, ticketReviews: bool, transcripts: bool, addons: bool)

  datatype Automation = Automation(
    inactivityTimeout: int, inactivityWarning: int, staffReminderTimeout: int,
    maxTicketsPerUser: int, ticketOverloadLimit: int)

  datatype Transcripts = Transcripts(format: string, sendToUser: bool, sendToStaffLog: bool, includeAttachments: bool)

  datatype Ai = Ai(enabled: bool, provider: Option<string>, apiKey: Option<string>, model: Option<string>,
                   autoRespondDelay: int)

  /** The merged configuration. `workingHours` is `None` for the built-in
      block, which is disabled. */
  datatype Config = Config(
    token: string, guildId: string, staffRoles: seq<string>, ticketCategoryId: string,
    feedbackChannelId: string, transcriptChannelId: string, logChannelId: Option<string>,
    botName: string, embedColor: string, footerText: string,
    thumbnailUrl: Option<string>, bannerUrl: Option<string>, language: string,
    features: Features, automation: Automation, workingHours: Option<WorkingHours>,
    transcripts: Transcripts, ai: Ai, priorityColors: PriorityColors, availableTags: seq<string>)

  /** `env || yaml || fallback` for a string setting. */
  function Pick(env: Option<string>, yaml: Option<string>, fallback: string): (r: string)
    ensures env.Some? ==> r == env.value
    ensures env.None? && Truthy(yaml) ==> r == yaml.value
    ensures env.None? && !Truthy(yaml) ==> r == fallback
  {
    match env
    case Some(v) => v
    case None => if Truthy(yaml) then yaml.value else fallback
  }

  /** `yaml || fallback` for a number: zero and absence both fall back. */
  function OrNumber(yaml: Option<int>, fallback: int): (r: int)
    ensures yaml.Some? && yaml.value != 0 ==> r == yaml.value
    ensures yaml.None? || yaml.value == 0 ==> r == fallback
  {
    if yaml.Some? && yaml.value != 0 then yaml.value else fallback
  }

  /** `yaml !== false` */
  function NotFalse(yaml: Option<bool>): (r: bool)
    ensures r <==> yaml != Some(false)
  {
    yaml != Some(false)
  }

  /** A feature flag: a set variable decides (`true` in any letter case, or
      `1`); otherwise the YAML flag, where an absent one is off. */
  predicate FlagFrom(env: map<string, string>, key: string, yaml: Option<bool>, r: bool)
  {
    && (Value(env, key).Some? ==> (r <==> AsciiLower(env[key]) == "true" || env[key] == "1"))
    && (Value(env, key).None? ==> (r <==> yaml == Some(true)))
  }

  /** `features` of `mergeWithEnv`: each flag from its variable, else from
      the YAML document. */
  function MergeFeatures(env: map<string, string>, f: YamlFeatures): (r: Features)
    ensures FlagFrom(env, "ENABLE_AI_RESPONSES", f.aiResponses, r.aiResponses)
    ensures FlagFrom(env, "ENABLE_AUTO_CLOSE", f.autoClose, r.autoClose)
    ensures FlagFrom(env, "ENABLE_WORKING_HOURS", f.workingHours, r.workingHours)
    ensures FlagFrom(env, "ENABLE_TICKET_REVIEWS", f.ticketReviews, r.ticketReviews)
    ensures FlagFrom(env, "ENABLE_TRANSCRIPTS", f.transcripts, r.transcripts)
    ensures FlagFrom(env, "ENABLE_ADDONS", f.addons, r.addons)
  {
    Features(
      GetBoolean(env, "ENABLE_AI_RESPONSES", f.aiResponses.GetOr(false)),
      GetBoolean(env, "ENABLE_AUTO_CLOSE", f.autoClose.GetOr(false)),
      GetBoolean(env, "ENABLE_WORKING_HOURS", f.workingHours.GetOr(false)),
      GetBoolean(env, "ENABLE_TICKET_REVIEWS", f.ticketReviews.GetOr(false)),
      GetBoolean(env, "ENABLE_TRANSCRIPTS", f.transcripts.GetOr(false)),
      GetBoolean(env, "ENABLE_ADDONS", f.addons.GetOr(false)))
  }

  /** A numeric limit: a set variable that parses as an integer decides;
      otherwise a non-zero YAML value; otherwise the default. */
  predicate LimitFrom(env: map<string, string>, key: string, yaml: Option<int>, default: int, r: int)
  {
    var fromEnv := Value(env, key).Some? && ParseInt(env[key]).Some?;
    && (fromEnv ==> r == ParseInt(env[key]).value)
    && (!fromEnv && yaml.Some? && yaml.value != 0 ==> r == yaml.value)
    && (!fromEnv && (yaml.None? || yaml.value == 0) ==> r == default)
  }

  /** `automation` of `mergeWithEnv`: each limit from its variable when that
      parses, else the YAML value when non-zero, else the default. */
  function MergeAutomation(env: map<string, string>, a: YamlAutomation): (r: Automation)
    ensures LimitFrom(env, "INACTIVITY_TIMEOUT", a.inactivityTimeout, 2880, r.inactivityTimeout)
    ensures LimitFrom(env, "INACTIVITY_WARNING", a.inactivityWarning, 1440, r.inactivityWarning)
    ensures LimitFrom(env, "STAFF_REMINDER_TIMEOUT", a.staffReminderTimeout, 60, r.staffReminderTimeout)
    ensures LimitFrom(env, "MAX_TICKETS_PER_USER", a.maxTicketsPerUser, 3, r.maxTicketsPerUser)
    ensures LimitFrom(env, "TICKET_OVERLOAD_LIMIT", a.ticketOverloadLimit, 50, r.ticketOverloadLimit)
  {
    Automation(
      GetNumber(env, "INACTIVITY_TIMEOUT", OrNumber(a.inactivityTimeout, 2880)),
      GetNumber(env, "INACTIVITY_WARNING", OrNumber(a.inactivityWarning, 1440)),
      GetNumber(env, "STAFF_REMINDER_TIMEOUT", OrNumber(a.staffReminderTimeout, 60)),
      GetNumber(env, "MAX_TICKETS_PER_USER", OrNumber(a.maxTicketsPerUser, 3)),
      GetNumber(env, "TICKET_OVERLOAD_LIMIT", OrNumber(a.ticketOverloadLimit, 50)))
  }

  /** `transcripts` of `mergeWithEnv` */
  function MergeTranscripts(env: map<string, string>, t: YamlTranscripts): (r: Transcripts)
    ensures Value(env, "TRANSCRIPT_FORMAT").Some? ==> r.format == env["TRANSCRIPT_FORMAT"]
    ensures Value(env, "TRANSCRIPT_FORMAT").None? && Truthy(t.format) ==> r.format == t.format.value
    ensures Value(env, "TRANSCRIPT_FORMAT").None? && !Truthy(t.format) ==> r.format == "html"
    ensures r.sendToUser <==> t.sendToUser != Some(false)
    ensures r.sendToStaffLog <==> t.sendToStaffLog != Some(false)
    ensures r.includeAttachments <==> t.includeAttachments != Some(false)
  {
    Transcripts(
      Pick(Value(env, "TRANSCRIPT_FORMAT"), t.format, "html"),
      NotFalse(t.sendToUser),
      NotFalse(t.sendToStaffLog),
      NotFalse(t.includeAttachments))
  }

  /** `ai` of `mergeWithEnv` */
  function MergeAi(env: map<string, string>, a: YamlAi): (r: Ai)
    ensures r.enabled <==> a.enabled == Some(true)
    ensures r.provider == (if Value(env, "AI_PROVIDER").Some? then Some(env["AI_PROVIDER"]) else a.provider)
    ensures r.apiKey == (if Value(env, "AI_API_KEY").Some? then Some(env["AI_API_KEY"]) else a.apiKey)
    ensures r.model == (if Value(env, "AI_MODEL").Some? then Some(env["AI_MODEL"]) else a.model)
    ensures r.autoRespondDelay == (if a.autoRespondDelay.Some? && a.autoRespondDelay.value != 0
                                   then a.autoRespondDelay.value else 5)
  {
    Ai(
      a.enabled.GetOr(false),
      (match Value(env, "AI_PROVIDER") case Some(v) => Some(v) case None => a.provider),
      (match Value(env, "AI_API_KEY") case Some(v) => Some(v) case None => a.apiKey),
      (match Value(env, "AI_MODEL") case Some(v) => Some(v) case None => a.model),
      OrNumber(a.autoRespondDelay, 5))
  }

  /** `staffRoles` of `mergeWithEnv`: the listed roles of the variable when
      it lists at least one, otherwise the YAML roles. */
  function StaffRolesFrom(env: map<string, string>, yaml: Option<seq<string>>): (r: seq<string>)
    ensures Value(env, "STAFF_ROLES").Some? && ListItems(env["STAFF_ROLES"]) != [] ==>
      r == ListItems(env["STAFF_ROLES"])
    ensures Value(env, "STAFF_ROLES").None? || ListItems(env["STAFF_ROLES"]) == [] ==>
      r == yaml.GetOr([])
  {
    var roles := GetArray(env, "STAFF_ROLES", []);
    if |roles| > 0 then roles else yaml.GetOr([])
  }

  /** `mergeWithEnv` */
  function MergeWithEnv(env: map<string, string>, y: YamlConfig): (r: Config)
    ensures r.token == "" <==> Value(env, "DISCORD_TOKEN").None? && !Truthy(y.token)
    ensures r.guildId == "" <==> Value(env, "GUILD_ID").None? && !Truthy(y.guildId)
    ensures r.ticketCategoryId == "" <==> Value(env, "TICKET_CATEGORY_ID").None? && !Truthy(y.ticketCategoryId)
    ensures r.workingHours == y.workingHours && r.thumbnailUrl == y.thumbnailUrl && r.bannerUrl == y.bannerUrl
    ensures y.availableTags.None? ==> r.availableTags == DefaultTags
  {
    Config(
      Pick(Value(env, "DISCORD_TOKEN"), y.token, ""),
      Pick(Value(env, "GUILD_ID"), y.guildId, ""),
      StaffRolesFrom(env, y.staffRoles),
      Pick(Value(env, "TICKET_CATEGORY_ID"), y.ticketCategoryId, ""),
      Pick(Value(env, "FEEDBACK_CHANNEL_ID"), y.feedbackChannelId, ""),
      Pick(Value(env, "TRANSCRIPT_CHANNEL_ID"), y.transcriptChannelId, ""),
      (match Value(env, "LOG_CHANNEL_ID") case Some(v) => Some(v) case None => y.logChannelId),
      Pick(Value(env, "BOT_NAME"), y.botName, "Support Bot"),
      Pick(Value(env, "EMBED_COLOR"), y.embedColor, "#5865F2"),
      Pick(Value(env, "FOOTER_TEXT"), y.footerText, "Support System \U{A9} 2025"),
      y.thumbnailUrl,
      y.bannerUrl,
      Pick(Value(env, "LANGUAGE"), y.language, "en"),
      MergeFeatures(env, y.features),
      MergeAutomation(env, y.automation),
      y.workingHours,
      MergeTranscripts(env, y.transcripts),
      MergeAi(env, y.ai),
      y.priorityColors.GetOr(DefaultColors),
      y.availableTags.GetOr(DefaultTags))
  }

  /** The setting a merged field takes: a non-empty environment variable wins,
      then a non-empty YAML value, then the default. */
  lemma EnvOverridesYaml(env: map<string, string>, y: YamlConfig)
    ensures var c := MergeWithEnv(env, y);
      && ("DISCORD_TOKEN" in env && env["DISCORD_TOKEN"] != "" ==> c.token == env["DISCORD_TOKEN"])
      && (Value(env, "DISCORD_TOKEN").None? ==> c.token == y.token.GetOr(""))
      && ("GUILD_ID" in env && env["GUILD_ID"] != "" ==> c.guildId == env["GUILD_ID"])
      && (Value(env, "GUILD_ID").None? ==> c.guildId == y.guildId.GetOr(""))
      && (Value(env, "LOG_CHANNEL_ID").None? ==> c.logChannelId == y.logChannelId)
      && (Value(env, "BOT_NAME").None? && !Truthy(y.botName) ==> c.botName == "Support Bot")
      && (Value(env, "STAFF_ROLES").None? ==> c.staffRoles == y.staffRoles.GetOr([]))
      && (c.transcripts.sendToUser <==> y.transcripts.sendToUser != Some(false))
      && (c.workingHours == y.workingHours)
  {
  }

  /** An environment variable holding the decimal rendering of a number
      overrides the YAML timeout; without it a YAML timeout of zero falls
      back to the default. */
  lemma TimeoutPrecedence(env: map<string, string>, y: YamlConfig, n: int)
    ensures "INACTIVITY_TIMEOUT" in env && env["INACTIVITY_TIMEOUT"] == IntToString(n) ==>
      MergeWithEnv(env, y).automation.inactivityTimeout == n
    ensures Value(env, "INACTIVITY_TIMEOUT").None? && y.automation.inactivityTimeout == Some(0) ==>
      MergeWithEnv(env, y).automation.inactivityTimeout == 2880
  {
    if "INACTIVITY_TIMEOUT" in env && env["INACTIVITY_TIMEOUT"] == IntToString(n) {
      ParseIntReadsDecimal(n, "");
      assert IntToString(n) + "" == IntToString(n);
      assert |NatToString(if n < 0 then -n else n)| >= 1;
    }
  }

  // ---------------------------------------------------------------- validation

  const TokenError := "Discord bot token is required (set DISCORD_TOKEN in .env or token in config.yml)"
  const GuildError := "Guild ID is required (set GUILD_ID in .env or guild_id in config.yml)"
  const CategoryError := "Ticket category ID is required"

  /** The errors `validateConfig` records, in its order: one per empty
      required setting. */
  function ConfigErrors(c: Config): (errs: seq<string>)
    ensures TokenError in errs <==> c.token == ""
    ensures GuildError in errs <==> c.guildId == ""
    ensures CategoryError in errs <==> c.ticketCategoryId == ""
    ensures |errs| == (if c.token == "" then 1 else 0) + (if c.guildId == "" then 1 else 0)
                      + (if c.ticketCategoryId == "" then 1 else 0)
  {
    (if c.token == "" then [TokenError] else [])
    + (if c.guildId == "" then [GuildError] else [])
    + (if c.ticketCategoryId == "" then [CategoryError] else [])
  }

  /** `validateConfig`: pushes one error per missing setting and fails exactly
      when there is one. */
  method ValidateConfig(c: Config) returns (errors: seq<string>, ok: bool)
    ensures errors == ConfigErrors(c)
    ensures ok <==> c.token != "" && c.guildId != "" && c.ticketCategoryId != ""
  {
    errors := [];
    if c.token == "" {
      errors := errors + [TokenError];
    }
    if c.guildId == "" {
      errors := errors + [GuildError];
    }
    if c.ticketCategoryId == "" {
      errors := errors + [CategoryError];
    }
    ok := |errors| == 0;
  }

  /** A fresh install with no environment file leaves all three required
      settings empty. */
  lemma FreshInstallIsInvalid()
    ensures ConfigErrors(MergeWithEnv(map[], DefaultYaml)) == [TokenError, GuildError, CategoryError]
  {
  }

  // ---------------------------------------------------------------- loading and the cache

  /** What reading and parsing `config.yml` gives. */
  datatype ConfigFile = ConfigMissing | ConfigUnreadable | ConfigParsed(doc: Option<YamlConfig>)

  /** The document the merge reads: the default after a missing file is
      written out; nothing on an error or an empty document, whose first
      field access throws. */
  function YamlOf(file: ConfigFile): (r: Option<YamlConfig>)
    ensures file.ConfigMissing? ==> r == Some(DefaultYaml)
    ensures file.ConfigUnreadable? ==> r.None?
    ensures file.ConfigParsed? ==> r == file.doc
  {
    match file
    case ConfigMissing => Some(DefaultYaml)
    case ConfigUnreadable => None
    case ConfigParsed(doc) => doc
  }

  datatype Panels = Panels(panels: map<int, Panel>)

  /** What reading and parsing `ticket-panels.yml` gives. */
  datatype PanelsFile = PanelsMissing | PanelsUnreadable | PanelsParsed(doc: Option<Panels>)

  class Handler {
    var config: Option<Config>
    var panels: Option<Panels>
    const loader: Loader

    constructor (loader: Loader)
      ensures config.None? && panels.None? && this.loader == loader
    {
      config := None;
      panels := None;
      this.loader := loader;
    }

    /** `loadConfig`: loads the environment, merges, caches the merged
        configuration BEFORE validating it, then fails if it is invalid. */
    method LoadConfig(envFile: EnvFile, file: ConfigFile) returns (r: Result<Config>)
      modifies this, loader
      ensures panels == old(panels) && loader.loaded
      ensures old(loader.loaded) ==> loader.env == old(loader.env)
      ensures YamlOf(file).None? ==> r.Err? && config == old(config)
      ensures YamlOf(file).Some? ==> config == Some(MergeWithEnv(loader.env, YamlOf(file).value))
      ensures YamlOf(file).Some? ==> (r.Ok? <==> ConfigErrors(config.value) == [])
      ensures r.Ok? ==> config == Some(r.value)
    {
      loader.Load(envFile);
      var y := YamlOf(file);
      if y.None? {
        return Err("Error loading config.yml");
      }
      var c := MergeWithEnv(loader.env, y.value);
      config := Some(c);
      var errors, ok := ValidateConfig(c);
      if !ok {
        return Err("Invalid configuration");
      }
      return Ok(c);
    }

    /** `loadPanels`: caches the parsed document, which may be empty. A
        missing file is not created, so reading it fails. */
    method LoadPanels(file: PanelsFile) returns (r: Result<Option<Panels>>)
      modifies this
      ensures config == old(config)
      ensures file.PanelsParsed? ==> panels == file.doc && r == Ok(file.doc)
      ensures !file.PanelsParsed? ==> r.Err? && panels == old(panels)
    {
      if !file.PanelsParsed? {
        return Err("Error loading ticket-panels.yml");
      }
      panels := file.doc;
      return Ok(file.doc);
    }

    /** `getConfig`: the cached configuration, loading it when there is
        none. */
    method GetConfig(envFile: EnvFile, file: ConfigFile) returns (r: Result<Config>)
      modifies this, loader
      ensures old(config).Some? ==> r == Ok(old(config).value) && config == old(config)
      ensures old(config).Some? ==> loader.loaded == old(loader.loaded) && loader.env == old(loader.env)
      ensures old(config).None? ==> loader.loaded && (old(loader.loaded) ==> loader.env == old(loader.env))
      ensures old(config).None? && YamlOf(file).None? ==> r.Err? && config.None?
      ensures old(config).None? && YamlOf(file).Some? ==> config == Some(MergeWithEnv(loader.env, YamlOf(file).value))
      ensures old(config).None? && YamlOf(file).Some? ==> (r.Ok? <==> ConfigErrors(config.value) == [])
      ensures r.Ok? ==> config == Some(r.value)
      ensures panels == old(panels)
    {
      if config.None? {
        r := LoadConfig(envFile, file);
        return;
      }
      return Ok(config.value);
    }

    /** `getPanels` */
    method GetPanels(file: PanelsFile) returns (r: Result<Option<Panels>>)
      modifies this
      ensures old(panels).Some? ==> r == Ok(old(panels)) && panels == old(panels)
      ensures old(panels).None? && file.PanelsParsed? ==> panels == file.doc && r == Ok(file.doc)
      ensures old(panels).None? && !file.PanelsParsed? ==> r.Err? && panels == old(panels)
      ensures config == old(config)
    {
      if panels.None? {
        r := LoadPanels(file);
        return;
      }
      return Ok(panels);
    }

    /** `reload`: clears both caches and loads both again; a configuration
        failure stops it before the panels are read. */
    method Reload(envFile: EnvFile, configFile: ConfigFile, panelsFile: PanelsFile) returns (ok: bool)
      modifies this, loader
      ensures YamlOf(configFile).None? ==> config.None? && panels.None? && !ok
      ensures YamlOf(configFile).Some? ==> config == Some(MergeWithEnv(loader.env, YamlOf(configFile).value))
      ensures YamlOf(configFile).Some? && ConfigErrors(config.value) != [] ==> panels.None? && !ok
      ensures ok <==> YamlOf(configFile).Some? && ConfigErrors(config.value) == [] && panelsFile.PanelsParsed?
      ensures ok ==> panels == panelsFile.doc
    {
      config := None;
      panels := None;
      var c := LoadConfig(envFile, configFile);
      if c.Err? {
        return false;
      }
      var p := LoadPanels(panelsFile);
      return p.Ok?;
    }
  }

  /** An invalid configuration is still cached: the first `getConfig` fails,
      and the second returns the cached invalid configuration without loading
      again. */
  method InvalidConfigIsCached(ld: Loader, envFile: EnvFile, y: YamlConfig, later: ConfigFile)
    returns (first: Result<Config>, second: Result<Config>)
    requires ld.loaded
    requires ConfigErrors(MergeWithEnv(ld.env, y)) != []
    modifies ld
    ensures first.Err? && second == Ok(old(MergeWithEnv(ld.env, y)))
    ensures ld.env == old(ld.env)
  {
    var h := new Handler(ld);
    var c := MergeWithEnv(ld.env, y);
    first := h.GetConfig(envFile, ConfigParsed(Some(y)));
    assert h.config == Some(c);
    assert ConfigErrors(c) != [];
    assert first.Err?;
    second := h.GetConfig(envFile, later);
    assert second == Ok(c);
  }
}
