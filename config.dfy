/** The configuration file `~/.gatorconfig.json` (src/config.ts), modelled at
    the level of the parsed JSON record: the file is either absent or holds
    one JSON value. */
module Config {
  import opened Wrappers

  /** A value as `JSON.parse` returns it (numbers restricted to integers). */
  datatype Json = JNull | JBool(b: bool) | JNum(n: int) | JStr(s: string) | JArr(elements: seq<Json>)
                | JObj(members: map<string, Json>)

  datatype Config = Config(dbUrl: string, currentUserName: string)

  const DbUrlRequired := "db_url is required in config file"
  const UserNameRequired := "current_user_name is required in config file"
  const ConfigNotFound := "Config file not found"
  /** The TypeError a property read on `null` throws. */
  const NullConfig := "Cannot read properties of null (reading 'db_url')"

  /** A property read on a non-null value: objects have their members, other
      values have none of the keys read here. */
  function Field(raw: Json, key: string): Option<Json> {
    match raw
    case JObj(members) => if key in members then Some(members[key]) else None
    case _ => None
  }

  /** The test `!v || typeof v !== "string"` fails exactly for a non-empty
      string. */
  predicate PresentString(v: Option<Json>) {
    v.Some? && v.value.JStr? && v.value.s != ""
  }

  /** `validateConfig`: db_url is checked first, then current_user_name; the
      snake_case keys become the camelCase fields. */
  function ValidateConfig(raw: Json): (r: Result<Config>)
    ensures r.Ok? <==> !raw.JNull? && PresentString(Field(raw, "db_url"))
                       && PresentString(Field(raw, "current_user_name"))
    ensures r.Ok? ==> Field(raw, "db_url") == Some(JStr(r.value.dbUrl))
                      && Field(raw, "current_user_name") == Some(JStr(r.value.currentUserName))
    ensures !raw.JNull? && !PresentString(Field(raw, "db_url")) ==> r == Err(DbUrlRequired)
    ensures PresentString(Field(raw, "db_url")) && !PresentString(Field(raw, "current_user_name"))
            ==> r == Err(UserNameRequired)
  {
    if raw.JNull? then Err(NullConfig)
    else if !PresentString(Field(raw, "db_url")) then Err(DbUrlRequired)
    else if !PresentString(Field(raw, "current_user_name")) then Err(UserNameRequired)
    else Ok(Config(Field(raw, "db_url").value.s, Field(raw, "current_user_name").value.s))
  }

  /** The record `writeConfig` stores. */
  function ToRaw(cfg: Config): (r: Json)
    ensures r.JObj? && r.members.Keys == {"db_url", "current_user_name"}
    ensures Field(r, "db_url") == Some(JStr(cfg.dbUrl))
    ensures Field(r, "current_user_name") == Some(JStr(cfg.currentUserName))
  {
    JObj(map["db_url" := JStr(cfg.dbUrl), "current_user_name" := JStr(cfg.currentUserName)])
  }

  /** Writing a config and validating it back returns it when both fields are
      non-empty; an empty field is refused on reading, db_url first. */
  lemma WriteThenValidate(cfg: Config)
    ensures cfg.dbUrl != "" && cfg.currentUserName != "" ==> ValidateConfig(ToRaw(cfg)) == Ok(cfg)
    ensures cfg.dbUrl == "" ==> ValidateConfig(ToRaw(cfg)) == Err(DbUrlRequired)
    ensures cfg.dbUrl != "" && cfg.currentUserName == "" ==> ValidateConfig(ToRaw(cfg)) == Err(UserNameRequired)
  {
  }

  /** `readConfig` over the file's content. */
  function ReadConfigFrom(file: Option<Json>): (r: Result<Config>)
    ensures file.None? ==> r == Err(ConfigNotFound)
    ensures file.Some? ==> r == ValidateConfig(file.value)
  {
    match file
    case None => Err(ConfigNotFound)
    case Some(raw) => ValidateConfig(raw)
  }

  /** The configuration file. */
  class ConfigFile {
    var file: Option<Json>

    constructor (file: Option<Json>)
      ensures this.file == file
    {
      this.file := file;
    }

    /** `readConfig`: missing file, then validation. */
    method ReadConfig() returns (r: Result<Config>)
      ensures r == ReadConfigFrom(file)
    {
      r := ReadConfigFrom(file);
    }

    /** `writeConfig`: the file afterwards holds exactly the two keys. */
    method WriteConfig(cfg: Config)
      modifies this
      ensures file == Some(ToRaw(cfg))
    {
      file := Some(ToRaw(cfg));
    }

    /** `setUser`: read, change the user name, write back. A config that
        cannot be read is left as it is and its error is thrown; otherwise
        the file holds the old db_url and the new name and nothing else. */
    method SetUser(userName: string) returns (r: Result<()>)
      modifies this
      ensures ReadConfigFrom(old(file)).Err? ==>
        r == Err(ReadConfigFrom(old(file)).error) && file == old(file)
      ensures ReadConfigFrom(old(file)).Ok? ==>
        r.Ok? && file == Some(ToRaw(Config(ReadConfigFrom(old(file)).value.dbUrl, userName)))
    {
      var config := ReadConfig();
      if config.Err? {
        return Err(config.error);
      }
      var updated := config.value.(currentUserName := userName);
      WriteConfig(updated);
      r := Ok(());
    }
  }

  /** After a successful `setUser(name)` the config reads back with that name
      and the old db_url, unless the name is empty: then every later read
      fails with the current_user_name error. */
  lemma SetUserReadBack(before: Option<Json>, userName: string)
    requires ReadConfigFrom(before).Ok?
    ensures var cfg := ReadConfigFrom(before).value;
      && (userName != "" ==> ReadConfigFrom(Some(ToRaw(Config(cfg.dbUrl, userName)))) == Ok(Config(cfg.dbUrl, userName)))
      && (userName == "" ==> ReadConfigFrom(Some(ToRaw(Config(cfg.dbUrl, userName)))) == Err(UserNameRequired))
  {
    var cfg := ReadConfigFrom(before).value;
    WriteThenValidate(Config(cfg.dbUrl, userName));
  }
}
