/** The bot's configuration: the process environment read as a map from
    variable names to values, checked and turned into a `BotConfig`. */
module Config {
  import opened Wrappers
  import opened Text

  type Env = map<string, string>

  /** `os.getenv(name)`. */
  function Getenv(env: Env, name: string): Option<string> {
    if name in env then Some(env[name]) else None
  }

  /** `os.getenv(name, default)`. */
  function GetenvOr(env: Env, name: string, default: string): string {
    if name in env then env[name] else default
  }

  /** Python truthiness of an optional string: set and not empty. */
  predicate Truthy(v: Option<string>) {
    v.Some? && v.value != ""
  }

  const ApiIdVar := "TELEGRAM_API_ID"
  const ChatsVar := "WHITELISTED_CHATS"
  const UsersVar := "WHITELISTED_USERS"
  const UrlVar := "N8N_WEBHOOK_URL"
  const SecretVar := "WEBHOOK_SECRET"

  /** The required variables, in the order they are checked. */
  const RequiredVars: seq<string> :=
    [ApiIdVar, "TELEGRAM_API_HASH", ChatsVar, UsersVar, UrlVar, SecretVar]

  /** The `ValueError`s the configuration raises. */
  datatype ConfigError =
    | MissingVariables(names: seq<string>)
    | NotANumber(name: string)
    | SecretRequired

  datatype BotConfig = BotConfig(
    apiId: Option<string>,
    apiHash: Option<string>,
    openaiKey: Option<string>,
    chatId: Option<int>,
    whitelistedChats: set<int>,
    whitelistedUsers: set<int>,
    n8nWebhook: Option<string>,
    webhookSecret: Option<string>,
    anonymizeUsernames: bool,
    maxContextMessages: int,
    rateLimitRequests: int,
    encryptSessions: bool)

  // Comma-separated integer whitelists

  /** The integers among the pieces, each parsed with `int()`; a piece that
      does not parse is skipped. The source strips each piece first, which
      `int()` does anyway (`Text.ParseIntOfStrip`). */
  function IdsOf(pieces: seq<string>): set<int> {
    if pieces == [] then {}
    else
      var parsed := ParseInt(pieces[|pieces| - 1]);
      var rest := IdsOf(pieces[..|pieces| - 1]);
      if parsed.Some? then rest + {parsed.value} else rest
  }

  lemma {:induction false} IdsOfMembership(pieces: seq<string>, x: int)
    ensures x in IdsOf(pieces) <==> exists p :: p in pieces && ParseInt(p) == Some(x)
  {
    if pieces != [] {
      var init := pieces[..|pieces| - 1];
      var last := pieces[|pieces| - 1];
      assert pieces == init + [last];
      IdsOfMembership(init, x);
      if x in IdsOf(pieces) {
        if x in IdsOf(init) {
          var p :| p in init && ParseInt(p) == Some(x);
          assert p in pieces;
        } else {
          assert ParseInt(last) == Some(x) && last in pieces;
        }
      } else {
        forall p | p in pieces ensures ParseInt(p) != Some(x) {
          if p !in init {
            assert p == last;
          }
        }
      }
    }
  }

  /** What `_parse_whitelist` returns: the empty set for an empty string. */
  function WhitelistIds(s: string): set<int> {
    if s == "" then {} else IdsOf(Split(s, ','))
  }

  /** An integer is whitelisted exactly when some comma-separated entry of a
      non-empty string parses to it; unparsable entries are skipped. */
  lemma WhitelistMembership(s: string, x: int)
    ensures s == "" ==> WhitelistIds(s) == {}
    ensures s != "" ==>
      (x in WhitelistIds(s) <==> exists p :: p in Split(s, ',') && ParseInt(p) == Some(x))
  {
    if s != "" {
      IdsOfMembership(Split(s, ','), x);
    }
  }

  function Rendered(ids: seq<int>): (r: seq<string>)
    ensures |r| == |ids|
    ensures forall k :: 0 <= k < |ids| ==> r[k] == IntToString(ids[k])
  {
    if ids == [] then [] else Rendered(ids[..|ids| - 1]) + [IntToString(ids[|ids| - 1])]
  }

  lemma IdsOfSnoc(pieces: seq<string>, piece: string, x: int)
    requires ParseInt(piece) == Some(x)
    ensures IdsOf(pieces + [piece]) == IdsOf(pieces) + {x}
  {
    assert (pieces + [piece])[..|pieces|] == pieces;
  }

  lemma ElementsSnoc(ids: seq<int>, x: int)
    ensures (set y | y in ids + [x]) == (set y | y in ids) + {x}
  {
  }

  lemma {:induction false} IdsOfRendered(ids: seq<int>)
    ensures IdsOf(Rendered(ids)) == set x | x in ids
  {
    if ids != [] {
      var init := ids[..|ids| - 1];
      var last := ids[|ids| - 1];
      assert ids == init + [last];
      assert Rendered(ids) == Rendered(init) + [IntToString(last)];
      IdsOfRendered(init);
      ParseIntOfIntToString(last);
      IdsOfSnoc(Rendered(init), IntToString(last), last);
      ElementsSnoc(init, last);
    }
  }

  /** Writing a non-empty list of ids as `",".join(str(i) for i in ids)` and
      parsing it back gives exactly the set of those ids. */
  lemma WhitelistRoundTrip(ids: seq<int>)
    requires |ids| >= 1
    ensures WhitelistIds(Join(Rendered(ids), ',')) == set x | x in ids
  {
    var pieces := Rendered(ids);
    forall k | 0 <= k < |pieces| ensures ',' !in pieces[k] {
      if ',' in pieces[k] {
        IntToStringChars(ids[k], ',');
      }
    }
    SplitJoin(pieces, ',');
    assert |Join(pieces, ',')| > 0 by {
      JoinNonEmpty(pieces, ',');
    }
    IdsOfRendered(ids);
  }

  lemma JoinNonEmpty(pieces: seq<string>, sep: char)
    requires |pieces| >= 1 && |pieces[0]| >= 1
    ensures |Join(pieces, sep)| >= 1
  {
  }

  /** `int(entry.strip())`, which is `int(entry)`. */
  method ParseEntry(entry: string) returns (r: Option<int>)
    ensures r == ParseInt(entry)
  {
    ParseIntOfStrip(entry);
    r := ParseInt(Strip(entry));
  }

  /** `_parse_whitelist`: each stripped entry that `int()` accepts is added,
      the others are skipped. */
  method ParseWhitelist(whitelistStr: string) returns (ids: set<int>)
    ensures ids == WhitelistIds(whitelistStr)
  {
    ids := {};
    if whitelistStr == "" {
      return;
    }
    var pieces := Split(whitelistStr, ',');
    var i := 0;
    while i < |pieces|
      invariant 0 <= i <= |pieces|
      invariant ids == IdsOf(pieces[..i])
    {
      var parsed := ParseEntry(pieces[i]);
      assert pieces[..i + 1][..i] == pieces[..i];
      if parsed.Some? {
        ids := ids + {parsed.value};
      }
      i := i + 1;
    }
    assert pieces[..|pieces|] == pieces;
  }

  /** `_parse_user_whitelist`: the same parse as `_parse_whitelist`. */
  method ParseUserWhitelist(whitelistStr: string) returns (ids: set<int>)
    ensures ids == WhitelistIds(whitelistStr)
  {
    ids := ParseWhitelist(whitelistStr);
  }

  // The required-variable check

  /** The names among `names` whose variable is unset or empty, in order. */
  function MissingAmong(env: Env, names: seq<string>): (r: seq<string>)
    ensures forall k :: 0 <= k < |r| ==> r[k] in names && !Truthy(Getenv(env, r[k]))
  {
    if names == [] then []
    else
      var rest := MissingAmong(env, names[..|names| - 1]);
      var v := names[|names| - 1];
      if Truthy(Getenv(env, v)) then rest else rest + [v]
  }

  lemma {:induction false} NoneMissing(env: Env, names: seq<string>)
    ensures MissingAmong(env, names) == [] <==> forall v :: v in names ==> Truthy(Getenv(env, v))
  {
    if names != [] {
      var init := names[..|names| - 1];
      NoneMissing(env, init);
      assert names == init + [names[|names| - 1]];
    }
  }

  /** Every entry of the comma-separated list parses with `int()`. */
  predicate EntriesAreIntegers(pieces: seq<string>) {
    forall k :: 0 <= k < |pieces| ==> ParseInt(pieces[k]).Some?
  }

  /** What `validate_environment` decides. */
  function CheckEnvironment(env: Env): Outcome<ConfigError> {
    var missing := MissingAmong(env, RequiredVars);
    var apiId := Getenv(env, ApiIdVar);
    var chats := GetenvOr(env, ChatsVar, "");
    var users := GetenvOr(env, UsersVar, "");
    if missing != [] then Fail(MissingVariables(missing))
    else if apiId.None? || ParseInt(apiId.value).None? then Fail(NotANumber(ApiIdVar))
    else if chats != "" && !EntriesAreIntegers(Split(chats, ',')) then Fail(NotANumber(ChatsVar))
    else if users != "" && !EntriesAreIntegers(Split(users, ',')) then Fail(NotANumber(UsersVar))
    else Pass
  }

  /** The environment passes exactly when all six required variables are set
      and non-empty, the API id is an integer and every whitelist entry is one. */
  lemma CheckEnvironmentCharacterization(env: Env)
    ensures CheckEnvironment(env).Pass? <==>
      && (forall v :: v in RequiredVars ==> Truthy(Getenv(env, v)))
      && ParseInt(GetenvOr(env, ApiIdVar, "")).Some?
      && EntriesAreIntegers(Split(GetenvOr(env, ChatsVar, ""), ','))
      && EntriesAreIntegers(Split(GetenvOr(env, UsersVar, ""), ','))
  {
    NoneMissing(env, RequiredVars);
    assert ApiIdVar in RequiredVars && ChatsVar in RequiredVars && UsersVar in RequiredVars;
    if forall v :: v in RequiredVars ==> Truthy(Getenv(env, v)) {
      assert Getenv(env, ApiIdVar) == Some(GetenvOr(env, ApiIdVar, ""));
      assert GetenvOr(env, ChatsVar, "") != "" && GetenvOr(env, UsersVar, "") != "";
    }
  }

  /** A missing or empty required variable is reported, by name. */
  lemma MissingVariableRejected(env: Env, v: string)
    requires v in RequiredVars && !Truthy(Getenv(env, v))
    ensures CheckEnvironment(env).Fail?
    ensures CheckEnvironment(env).error.MissingVariables?
    ensures v in CheckEnvironment(env).error.names
  {
    NoneMissing(env, RequiredVars);
    MissingMember(env, RequiredVars, v);
  }

  lemma {:induction false} MissingMember(env: Env, names: seq<string>, v: string)
    requires v in names && !Truthy(Getenv(env, v))
    ensures v in MissingAmong(env, names)
  {
    var init := names[..|names| - 1];
    assert names == init + [names[|names| - 1]];
    if v != names[|names| - 1] {
      MissingMember(env, init, v);
    }
  }

  method EntriesParse(s: string) returns (ok: bool)
    ensures ok == EntriesAreIntegers(Split(s, ','))
  {
    var pieces := Split(s, ',');
    var i := 0;
    while i < |pieces|
      invariant 0 <= i <= |pieces|
      invariant forall k :: 0 <= k < i ==> ParseInt(pieces[k]).Some?
    {
      var parsed := ParseEntry(pieces[i]);
      if parsed.None? {
        return false;
      }
      i := i + 1;
    }
    return true;
  }

  /** `validate_environment`: collects the missing variables, then checks the
      numeric ones, raising at the first problem. */
  method ValidateEnvironment(env: Env) returns (r: Outcome<ConfigError>)
    ensures r == CheckEnvironment(env)
  {
    var missing: seq<string> := [];
    var i := 0;
    while i < |RequiredVars|
      invariant 0 <= i <= |RequiredVars|
      invariant missing == MissingAmong(env, RequiredVars[..i])
    {
      assert RequiredVars[..i + 1][..i] == RequiredVars[..i];
      if !Truthy(Getenv(env, RequiredVars[i])) {
        missing := missing + [RequiredVars[i]];
      }
      i := i + 1;
    }
    assert RequiredVars[..|RequiredVars|] == RequiredVars;
    if missing != [] {
      return Fail(MissingVariables(missing));
    }
    var apiId := Getenv(env, ApiIdVar);
    if apiId.None? || ParseInt(apiId.value).None? {
      return Fail(NotANumber(ApiIdVar));
    }
    var chats := GetenvOr(env, ChatsVar, "");
    if chats != "" {
      var ok := EntriesParse(chats);
      if !ok {
        return Fail(NotANumber(ChatsVar));
      }
    }
    var users := GetenvOr(env, UsersVar, "");
    if users != "" {
      var ok := EntriesParse(users);
      if !ok {
        return Fail(NotANumber(UsersVar));
      }
    }
    return Pass;
  }

  // Loading

  /** `value.lower() == 'true'`. */
  predicate IsTrue(value: string) {
    Lower(value) == "true"
  }

  /** What `load_config` assigns, or the `ValueError` it raises. */
  function ConfigFromEnv(env: Env): (r: Result<BotConfig, ConfigError>)
    ensures r.Success? && r.value.chatId.Some? ==> r.value.chatId.value in r.value.whitelistedChats
    ensures r.Success? && Truthy(r.value.n8nWebhook) ==> Truthy(r.value.webhookSecret)
    ensures r.Success? ==> r.value.whitelistedUsers == WhitelistIds(GetenvOr(env, UsersVar, ""))
  {
    var maxContext := ParseInt(GetenvOr(env, "MAX_CONTEXT_MESSAGES", "25"));
    var rateLimit := ParseInt(GetenvOr(env, "RATE_LIMIT_REQUESTS", "5"));
    var rawChat := Getenv(env, "CHAT_ID");
    var chatId := if Truthy(rawChat) then ParseInt(rawChat.value) else None;
    var listed := WhitelistIds(GetenvOr(env, ChatsVar, ""));
    var url := Getenv(env, UrlVar);
    var secret := Getenv(env, SecretVar);
    if maxContext.None? then Failure(NotANumber("MAX_CONTEXT_MESSAGES"))
    else if rateLimit.None? then Failure(NotANumber("RATE_LIMIT_REQUESTS"))
    else if Truthy(url) && !Truthy(secret) then Failure(SecretRequired)
    else
      Success(BotConfig(
        apiId := Getenv(env, ApiIdVar),
        apiHash := Getenv(env, "TELEGRAM_API_HASH"),
        openaiKey := Getenv(env, "OPENAI_API_KEY"),
        chatId := chatId,
        whitelistedChats := if chatId.Some? then listed + {chatId.value} else listed,
        whitelistedUsers := WhitelistIds(GetenvOr(env, UsersVar, "")),
        n8nWebhook := url,
        webhookSecret := secret,
        anonymizeUsernames := IsTrue(GetenvOr(env, "ANONYMIZE_USERNAMES", "true")),
        maxContextMessages := maxContext.value,
        rateLimitRequests := rateLimit.value,
        encryptSessions := IsTrue(GetenvOr(env, "ENCRYPT_SESSION_FILES", "false"))))
  }

  /** `BotConfig()`: validate, then load. */
  method NewBotConfig(env: Env) returns (r: Result<BotConfig, ConfigError>)
    ensures CheckEnvironment(env).Fail? ==> r == Failure(CheckEnvironment(env).error)
    ensures CheckEnvironment(env).Pass? ==> r == ConfigFromEnv(env)
  {
    var checked := ValidateEnvironment(env);
    if checked.Fail? {
      return Failure(checked.error);
    }
    r := ConfigFromEnv(env);
  }

  /** A `CHAT_ID` that parses becomes the primary chat and is whitelisted; one
      that is unset, empty or unparsable leaves no primary chat. */
  lemma PrimaryChat(env: Env)
    requires ConfigFromEnv(env).Success?
    ensures var cfg := ConfigFromEnv(env).value;
      && (cfg.chatId.Some? <==> Truthy(Getenv(env, "CHAT_ID")) && ParseInt(env["CHAT_ID"]).Some?)
      && (cfg.chatId.Some? ==> cfg.chatId.value == ParseInt(env["CHAT_ID"]).value)
      && cfg.whitelistedChats == WhitelistIds(GetenvOr(env, ChatsVar, "")) + (if cfg.chatId.Some? then {cfg.chatId.value} else {})
  {
  }

  /** A webhook URL without a secret makes loading fail (once the numeric
      variables parse, with exactly that error). */
  lemma SecretRule(env: Env)
    requires Truthy(Getenv(env, UrlVar)) && !Truthy(Getenv(env, SecretVar))
    ensures ConfigFromEnv(env).Failure?
    ensures ParseInt(GetenvOr(env, "MAX_CONTEXT_MESSAGES", "25")).Some?
            && ParseInt(GetenvOr(env, "RATE_LIMIT_REQUESTS", "5")).Some?
            ==> ConfigFromEnv(env) == Failure(SecretRequired)
  {
  }

  /** After validation, the secret rule can no longer fire, and no whitelist
      entry is skipped: each one is in the loaded set. */
  lemma ValidatedEnvironmentLoads(env: Env)
    requires CheckEnvironment(env).Pass?
    requires ConfigFromEnv(env).Success?
    ensures forall p :: p in Split(GetenvOr(env, UsersVar, ""), ',') ==>
      ParseInt(p).Some? && ParseInt(p).value in ConfigFromEnv(env).value.whitelistedUsers
    ensures forall p :: p in Split(GetenvOr(env, ChatsVar, ""), ',') ==>
      ParseInt(p).Some? && ParseInt(p).value in ConfigFromEnv(env).value.whitelistedChats
  {
    CheckEnvironmentCharacterization(env);
    forall p | p in Split(GetenvOr(env, UsersVar, ""), ',')
      ensures ParseInt(p).Some? && ParseInt(p).value in ConfigFromEnv(env).value.whitelistedUsers
    {

      WhitelistMembership(GetenvOr(env, UsersVar, ""), ParseInt(p).value);
    }
    forall p | p in Split(GetenvOr(env, ChatsVar, ""), ',')
      ensures ParseInt(p).Some? && ParseInt(p).value in ConfigFromEnv(env).value.whitelistedChats
    {

      WhitelistMembership(GetenvOr(env, ChatsVar, ""), ParseInt(p).value);
    }
  }

  /** The validated environment never hits the missing-secret error. */
  lemma ValidatedEnvironmentHasSecret(env: Env)
    requires CheckEnvironment(env).Pass?
    ensures ConfigFromEnv(env) != Failure(SecretRequired)
  {
    CheckEnvironmentCharacterization(env);
    assert SecretVar in RequiredVars;
  }

  /** The flags compare the lower-cased value with "true"; unset, usernames are
      anonymised, session files are not encrypted, 25 context messages are
      kept and 5 requests are allowed per window. */
  lemma Defaults(env: Env)
    requires ConfigFromEnv(env).Success?
    ensures var cfg := ConfigFromEnv(env).value;
      && ("ANONYMIZE_USERNAMES" !in env ==> cfg.anonymizeUsernames)
      && ("ENCRYPT_SESSION_FILES" !in env ==> !cfg.encryptSessions)
      && ("MAX_CONTEXT_MESSAGES" !in env ==> cfg.maxContextMessages == 25)
      && ("RATE_LIMIT_REQUESTS" !in env ==> cfg.rateLimitRequests == 5)
  {
    assert Lower("true") == "true";
    assert Lower("false") != "true";
    ParseIntOfIntToString(25);
    ParseIntOfIntToString(5);
  }

  /** `True`, `TRUE` and `true` all switch a flag on; anything else, including
      "1" or "yes", switches it off. */
  lemma FlagSpelling(value: string)
    ensures IsTrue(value) <==> |value| == 4 && LowerChar(value[0]) == 't' && LowerChar(value[1]) == 'r'
                                 && LowerChar(value[2]) == 'u' && LowerChar(value[3]) == 'e'
  {
    var low := Lower(value);
    if |value| == 4 {
      assert low[0] == LowerChar(value[0]) && low[1] == LowerChar(value[1]);
      assert low[2] == LowerChar(value[2]) && low[3] == LowerChar(value[3]);
    }
  }

  // Whitelist checks shared by both handlers

  /** `is_chat_whitelisted`: an empty chat whitelist admits only the primary chat. */
  predicate IsChatWhitelisted(cfg: BotConfig, chatId: int) {
    if cfg.whitelistedChats == {} then cfg.chatId == Some(chatId) else chatId in cfg.whitelistedChats
  }

  /** `is_user_whitelisted`: an empty user whitelist admits nobody. */
  function IsUserWhitelisted(cfg: BotConfig, userId: int): (r: bool)
    ensures r <==> userId in cfg.whitelistedUsers
  {
    if cfg.whitelistedUsers == {} then false else userId in cfg.whitelistedUsers
  }

  /** For a loaded configuration the primary chat is already in the
      whitelist, so the empty-whitelist fallback never admits anything extra:
      a chat is admitted exactly when it is listed. */
  lemma LoadedChatPolicy(env: Env, chatId: int)
    requires ConfigFromEnv(env).Success?
    ensures IsChatWhitelisted(ConfigFromEnv(env).value, chatId) <==> chatId in ConfigFromEnv(env).value.whitelistedChats
  {
  }

  /** The fallback itself: with no whitelisted chats, exactly the primary chat
      is admitted; otherwise exactly the listed chats. */
  lemma ChatWhitelistRule(cfg: BotConfig, chatId: int)
    ensures cfg.whitelistedChats == {} ==> (IsChatWhitelisted(cfg, chatId) <==> cfg.chatId == Some(chatId))
    ensures cfg.whitelistedChats != {} ==> (IsChatWhitelisted(cfg, chatId) <==> chatId in cfg.whitelistedChats)
  {
  }
}
