/**
 * The string side of the metadata store in services/metadata_service.py: the
 * SAS URL split, the table URL derived from an account- or table-level SAS
 * URL, the blob URLs of the PDF and of the JSON log, the entity a resume is
 * stored as, and the writes `persist_resume_metadata` and `_update_log`
 * attempt. The HTTP requests themselves are not modelled: a write is the URL
 * and entity it would send, and whether the service accepts it is a parameter.
 */
module MetadataStore {
  import opened Wrappers
  import opened Text
  import opened Json
  import opened Identifiers

  datatype StoreError =
    | NoSasQuery      // the configured URL has no `?` and so no SAS token
    | MissingKeys     // the entity's PartitionKey or RowKey is falsy
    | NoTableName     // an account-level table URL and an empty table name
    | UploadFailed    // the PDF upload to the container was refused
    | InsertRefused   // the table service refused the entity insert
    | LogRefused      // the logs container refused the JSON upload

  // ---------------------------------------------------------------------------
  // SAS URLs
  // ---------------------------------------------------------------------------

  /** `url.split("?", 1)`, raising when there is no `?`. */
  function SplitSas(url: string): (r: Result<(string, string), StoreError>)
    ensures r.Failure? <==> '?' !in url
    ensures r.Failure? ==> r.error == NoSasQuery
    ensures r.Success? ==> r.value.0 + "?" + r.value.1 == url && '?' !in r.value.0
  {
    match SplitFirst(url, '?')
    case None => Failure(NoSasQuery)
    case Some(p) => Success(p)
  }

  /** Splitting is the inverse of composing a `?`-free base with a query. */
  lemma SplitSasCompose(base: string, sas: string)
    requires '?' !in base
    ensures SplitSas(base + "?" + sas) == Success((base, sas))
  {
    SplitFirstOfJoin(base, '?', sas);
  }

  /** `f"{base_url.rstrip('/')}/{blob_name}?{sas_query}"`. */
  function BlobUrl(base: string, sas: string, blobName: string): string
  {
    RStripChar(base, '/') + "/" + blobName + "?" + sas
  }

  lemma NotInPrefix(a: string, b: string, c: char)
    requires a <= b && c !in b
    ensures c !in a
  {
    forall k | 0 <= k < |a| ensures a[k] != c {
      assert a[k] == b[k];
    }
  }

  /**
   * A blob URL splits back into the container path followed by `/` and the
   * blob name, and the SAS query unchanged.
   */
  lemma BlobUrlSplit(base: string, sas: string, blobName: string)
    requires '?' !in base && '?' !in blobName
    ensures SplitSas(BlobUrl(base, sas, blobName)) == Success((RStripChar(base, '/') + "/" + blobName, sas))
  {
    NotInPrefix(RStripChar(base, '/'), base, '?');
    SplitSasCompose(RStripChar(base, '/') + "/" + blobName, sas);
  }

  // ---------------------------------------------------------------------------
  // The path of a URL (urllib.parse.urlparse(...).path)
  // ---------------------------------------------------------------------------

  predicate IsSchemeChar(c: char)
  {
    'a' <= c <= 'z' || 'A' <= c <= 'Z' || '0' <= c <= '9' || c == '+' || c == '-' || c == '.'
  }

  /** A scheme: an ASCII letter, then letters, digits, `+`, `-` and `.`. */
  predicate IsScheme(s: string)
  {
    s != [] && ('a' <= s[0] <= 'z' || 'A' <= s[0] <= 'Z')
    && forall i :: 0 <= i < |s| ==> IsSchemeChar(s[i])
  }

  /** What follows `scheme:` when the text before the first `:` is a scheme, else the whole URL. */
  function AfterScheme(url: string): string
  {
    match SplitFirst(url, ':')
    case Some((a, b)) => if IsScheme(a) then b else url
    case None => url
  }

  /** The first index at or after `i` that holds `/`, `?` or `#`, or the length. */
  function NetlocEnd(s: string, i: nat): (k: nat)
    requires i <= |s|
    ensures i <= k <= |s|
    ensures forall j :: i <= j < k ==> s[j] != '/' && s[j] != '?' && s[j] != '#'
    ensures k < |s| ==> s[k] == '/' || s[k] == '?' || s[k] == '#'
    decreases |s| - i
  {
    if i == |s| || s[i] == '/' || s[i] == '?' || s[i] == '#' then i else NetlocEnd(s, i + 1)
  }

  /** `NetlocEnd` finds the first delimiter. */
  lemma {:induction false} NetlocEndAt(s: string, i: nat, j: nat)
    requires i <= j <= |s|
    requires forall m :: i <= m < j ==> s[m] != '/' && s[m] != '?' && s[m] != '#'
    requires j == |s| || s[j] == '/' || s[j] == '?' || s[j] == '#'
    ensures NetlocEnd(s, i) == j
    decreases j - i
  {
    if i < j {
      NetlocEndAt(s, i + 1, j);
    }
  }

  /** The text before the first `c`, or all of `s`. */
  function BeforeFirst(s: string, c: char): (r: string)
    ensures c !in r
    ensures c !in s ==> r == s
  {
    match SplitFirst(s, c)
    case Some(p) => p.0
    case None => s
  }

  /** `urlparse(url).path`: scheme, `//` authority, fragment and query removed. */
  function UrlPath(url: string): (path: string)
    ensures '#' !in path && '?' !in path
  {
    var r := AfterScheme(url);
    var r' := if |r| >= 2 && r[..2] == "//" then r[NetlocEnd(r, 2)..] else r;
    BeforeFirst(BeforeFirst(r', '#'), '?')
  }

  /** A host name: no character that would end the authority. */
  predicate IsHost(host: string)
  {
    '/' !in host && '?' !in host && '#' !in host
  }

  /** The path of `https://host/path` is `/path`. */
  lemma UrlPathHttps(host: string, path: string)
    requires IsHost(host)
    requires path == [] || path[0] == '/'
    requires '?' !in path && '#' !in path
    ensures UrlPath("https://" + host + path) == path
  {
    var url := "https://" + host + path;
    var rest := "//" + host + path;
    assert url == "https" + [':'] + rest;
    SplitFirstOfJoin("https", ':', rest);
    assert IsScheme("https");
    assert rest[..2] == "//";
    forall m | 2 <= m < 2 + |host| ensures rest[m] != '/' && rest[m] != '?' && rest[m] != '#' {
      assert rest[m] == host[m - 2];
    }
    if path != [] {
      assert rest[2 + |host|] == path[0];
    }
    NetlocEndAt(rest, 2, 2 + |host|);
    assert rest[2 + |host|..] == path;
  }

  // ---------------------------------------------------------------------------
  // The table URL
  // ---------------------------------------------------------------------------

  /** The SAS URL already names the table: its path ends in `/{name}` or `/{name}()`. */
  predicate IsTableLevel(base: string, name: string)
  {
    var path := RStripChar(UrlPath(base), '/');
    EndsWith(path, "/" + name) || EndsWith(path, "/" + name + "()")
  }

  /**
   * The table URL `get_all_resumes` and `_insert_table_entity` derive: the base
   * itself when it names the table, otherwise the base with `/{name}` appended;
   * a trailing `()` is then dropped.
   */
  function TableUrl(base: string, name: string): string
  {
    var t := if IsTableLevel(base, name) then RStripChar(base, '/') else RStripChar(base, '/') + "/" + name;
    if EndsWith(t, "()") then t[..|t| - 2] else t
  }

  /** A table name: not empty, no URL delimiter, and not ending in `)`. */
  predicate IsTableName(name: string)
  {
    name != [] && '/' !in name && '?' !in name && '#' !in name && name[|name| - 1] != ')'
  }

  /** `https://host` with an optional trailing `/` loses only that `/` to `rstrip("/")`. */
  lemma RStripHost(host: string, slash: bool)
    requires host != [] && '/' !in host
    ensures RStripChar("https://" + host + (if slash then "/" else ""), '/') == "https://" + host
  {
    var h := "https://" + host;
    assert h[|h| - 1] == host[|host| - 1];
    if slash {
      var base := h + "/";
      assert base[..|base| - 1] == h;
    } else {
      assert h + "" == h;
    }
  }

  /** A URL whose last character is not `)` has no `()` to drop. */
  lemma NoParens(t: string)
    requires t != [] && t[|t| - 1] != ')'
    ensures !EndsWith(t, "()")
  {
    if |t| >= 2 {
      assert t[|t| - 2..][1] == t[|t| - 1];
    }
  }

  /** When the base does not name the table and the result has no `()`, the table is appended. */
  lemma TableUrlAppends(base: string, name: string)
    requires !IsTableLevel(base, name)
    requires !EndsWith(RStripChar(base, '/') + "/" + name, "()")
    ensures TableUrl(base, name) == RStripChar(base, '/') + "/" + name
  {
  }

  /** An account-level URL has an empty path once `/` is stripped, so it never names a table. */
  lemma AccountNotTableLevel(host: string, name: string, slash: bool)
    requires IsHost(host)
    ensures !IsTableLevel("https://" + host + (if slash then "/" else ""), name)
  {
    var p := if slash then "/" else "";
    UrlPathHttps(host, p);
    assert RStripChar(UrlPath("https://" + host + p), '/') == "";
  }

  /** An account-level URL gets the table appended, with or without its trailing slash. */
  lemma TableUrlAccount(host: string, name: string, slash: bool)
    requires IsHost(host) && host != [] && IsTableName(name)
    ensures var base := "https://" + host + (if slash then "/" else "");
      TableUrl(base, name) == "https://" + host + "/" + name
  {
    var base := "https://" + host + (if slash then "/" else "");
    AccountNotTableLevel(host, name, slash);
    RStripHost(host, slash);
    var t := "https://" + host + "/" + name;
    assert t[|t| - 1] == name[|name| - 1];
    NoParens(t);
    TableUrlAppends(base, name);
  }

  /** A table-level URL is kept as it is. */
  lemma TableUrlTable(host: string, name: string)
    requires IsHost(host) && IsTableName(name)
    ensures TableUrl("https://" + host + "/" + name, name) == "https://" + host + "/" + name
  {
    var base := "https://" + host + "/" + name;
    PlainTableLevel(host, name);
    assert base[|base| - 1] == name[|name| - 1];
    var t := RStripChar(base, '/');
    assert t == base;
    NoParens(base);
    assert !EndsWith(t, "()");
  }

  /** `https://host/name` names the table `name`. */
  lemma PlainTableLevel(host: string, name: string)
    requires IsHost(host) && IsTableName(name)
    ensures IsTableLevel("https://" + host + "/" + name, name)
  {
    var path := "/" + name;
    assert "https://" + host + "/" + name == "https://" + host + path;
    UrlPathHttps(host, path);
    assert path[|path| - 1] == name[|name| - 1];
    assert RStripChar(path, '/') == path;
    assert EndsWith(path, "/" + name);
  }

  /** A table-level URL written `/{name}()` names the table and loses the `()`. */
  lemma TableUrlParens(host: string, name: string)
    requires IsHost(host) && IsTableName(name)
    ensures IsTableLevel("https://" + host + "/" + name + "()", name)
    ensures TableUrl("https://" + host + "/" + name + "()", name) == "https://" + host + "/" + name
  {
    var base := "https://" + host + "/" + name + "()";
    var path := "/" + name + "()";
    assert base == "https://" + host + path;
    UrlPathHttps(host, path);
    assert RStripChar(path, '/') == path;
    assert EndsWith(path, "/" + name + "()");
    assert IsTableLevel(base, name);
    assert RStripChar(base, '/') == base;
    assert EndsWith(base, "()");
    assert base[..|base| - 2] == "https://" + host + "/" + name;
  }

  /** Deriving the table URL a second time changes nothing. */
  lemma TableUrlIdempotent(host: string, name: string)
    requires IsHost(host) && host != [] && IsTableName(name)
    ensures TableUrl(TableUrl("https://" + host, name), name) == TableUrl("https://" + host, name)
  {
    TableUrlAccount(host, name, false);
    assert "https://" + host + "" == "https://" + host;
    TableUrlTable(host, name);
  }

  /** `not entity.get("PartitionKey") or not entity.get("RowKey")` is false. */
  predicate HasKeys(entity: seq<(string, Value)>)
  {
    Truthy(Get(entity, "PartitionKey")) && Truthy(Get(entity, "RowKey"))
  }

  /**
   * `_insert_table_entity`'s target URL: a missing SAS query, a falsy
   * PartitionKey or RowKey, and an empty table name for an account-level URL
   * are errors, checked in that order.
   */
  function InsertTableUrl(tableSasUrl: string, tableName: string, entity: seq<(string, Value)>): (r: Result<string, StoreError>)
  {
    if '?' !in tableSasUrl then Failure(NoSasQuery)
    else if !HasKeys(entity) then Failure(MissingKeys)
    else
      var (base, sas) := SplitSas(tableSasUrl).value;
      if !IsTableLevel(base, tableName) && tableName == "" then Failure(NoTableName)
      else Success(TableUrl(base, tableName) + "?" + sas)
  }

  /**
   * The errors, in the order they are checked: no SAS query first, then a
   * missing key, and only then a table name, which is refused only when empty.
   */
  lemma InsertTableUrlErrors(tableSasUrl: string, tableName: string, entity: seq<(string, Value)>)
    ensures var r := InsertTableUrl(tableSasUrl, tableName, entity);
      && ('?' !in tableSasUrl ==> r == Failure(NoSasQuery))
      && ('?' in tableSasUrl && !HasKeys(entity) ==> r == Failure(MissingKeys))
      && ('?' in tableSasUrl && HasKeys(entity) && tableName != "" ==> r.Success?)
      && (r.Failure? ==> r.error == NoSasQuery || r.error == MissingKeys || r.error == NoTableName)
      && (r == Failure(NoTableName) ==> '?' in tableSasUrl && HasKeys(entity) && tableName == "")
  {
  }

  /** A table URL built from a `?`-free base and name holds no `?`. */
  lemma TableUrlNoQuery(base: string, name: string)
    requires '?' !in base && '?' !in name
    ensures '?' !in TableUrl(base, name)
  {
    var b := RStripChar(base, '/');
    NotInPrefix(b, base, '?');
    var t := if IsTableLevel(base, name) then b else b + "/" + name;
    if EndsWith(t, "()") {
      NotInPrefix(t[..|t| - 2], t, '?');
    }
  }

  /** The insert URL splits back into the derived table URL and the configured SAS query. */
  lemma InsertTableUrlSplit(tableSasUrl: string, tableName: string, entity: seq<(string, Value)>)
    requires '?' !in tableName
    requires InsertTableUrl(tableSasUrl, tableName, entity).Success?
    ensures var (base, sas) := SplitSas(tableSasUrl).value;
      SplitSas(InsertTableUrl(tableSasUrl, tableName, entity).value) == Success((TableUrl(base, tableName), sas))
  {
    var (base, sas) := SplitSas(tableSasUrl).value;
    TableUrlNoQuery(base, tableName);
    SplitSasCompose(TableUrl(base, tableName), sas);
  }

  /** An account-level SAS URL `https://host?sas` posts to `https://host/name?sas`. */
  lemma InsertTableUrlAccount(host: string, sas: string, name: string, entity: seq<(string, Value)>)
    requires IsHost(host) && host != [] && IsTableName(name) && HasKeys(entity)
    ensures InsertTableUrl("https://" + host + "?" + sas, name, entity) == Success("https://" + host + "/" + name + "?" + sas)
  {
    var base := "https://" + host;
    assert '?' !in base;
    SplitSasCompose(base, sas);
    TableUrlAccount(host, name, false);
    assert base + "" == base;
  }

  /** A table-level SAS URL `https://host/name()?sas` posts to `https://host/name?sas`. */
  lemma InsertTableUrlTableLevel(host: string, sas: string, name: string, entity: seq<(string, Value)>)
    requires IsHost(host) && IsTableName(name) && HasKeys(entity)
    ensures InsertTableUrl("https://" + host + "/" + name + "()" + "?" + sas, name, entity)
      == Success("https://" + host + "/" + name + "?" + sas)
  {
    var base := "https://" + host + "/" + name + "()";
    assert '?' !in base;
    SplitSasCompose(base, sas);
    TableUrlParens(host, name);
  }

  // ---------------------------------------------------------------------------
  // The stored entity and the writes
  // ---------------------------------------------------------------------------

  const EntityKeys := ["PartitionKey", "RowKey", "OriginalName", "NameSlug", "Code",
                       "BlobUrl", "PageSize", "CreatedAt", "Description"]

  /** The values of the entity, in the order of `EntityKeys`. */
  function EntityValues(originalName: string, code: string, blobUrl: string, pageSize: string,
                        createdAt: string, description: string): (vs: seq<Value>)
    ensures |vs| == |EntityKeys|
  {
    [Str("by-code"), Str(code), Str(originalName), Str(Slugify(originalName)), Str(code),
     Str(blobUrl), Str(pageSize), Str(createdAt), Str(description)]
  }

  /** A dict literal: each key paired with its value, in order. */
  function Zip(keys: seq<string>, vals: seq<Value>): (e: seq<(string, Value)>)
    requires |keys| == |vals|
    ensures |e| == |keys| && forall i :: 0 <= i < |e| ==> e[i] == (keys[i], vals[i])
  {
    if keys == [] then [] else [(keys[0], vals[0])] + Zip(keys[1..], vals[1..])
  }

  /** The dict `persist_resume_metadata` stores, with the timestamp as a parameter. */
  function MakeEntity(originalName: string, code: string, blobUrl: string, pageSize: string,
                      createdAt: string, description: string): (e: seq<(string, Value)>)
    ensures |e| == |EntityKeys| && forall i :: 0 <= i < |e| ==> e[i].0 == EntityKeys[i]
  {
    Zip(EntityKeys, EntityValues(originalName, code, blobUrl, pageSize, createdAt, description))
  }

  lemma EntityKeysDistinct()
    ensures forall i, j :: 0 <= i < |EntityKeys| && 0 <= j < |EntityKeys| && i != j ==> EntityKeys[i] != EntityKeys[j]
  {
  }

  /** Reading the entity back gives each argument under its key. */
  lemma MakeEntityFields(originalName: string, code: string, blobUrl: string, pageSize: string,
                         createdAt: string, description: string)
    ensures var e := MakeEntity(originalName, code, blobUrl, pageSize, createdAt, description);
      && Get(e, "PartitionKey") == Str("by-code")
      && Get(e, "RowKey") == Str(code) && Get(e, "Code") == Str(code)
      && Get(e, "OriginalName") == Str(originalName)
      && Get(e, "NameSlug") == Str(Slugify(originalName))
      && Get(e, "BlobUrl") == Str(blobUrl) && Get(e, "PageSize") == Str(pageSize)
      && Get(e, "CreatedAt") == Str(createdAt) && Get(e, "Description") == Str(description)
  {
    var e := MakeEntity(originalName, code, blobUrl, pageSize, createdAt, description);
    var vs := EntityValues(originalName, code, blobUrl, pageSize, createdAt, description);
    EntityKeysDistinct();
    forall i | 0 <= i < |e|
      ensures Get(e, EntityKeys[i]) == vs[i]
    {
      LookupFirst(e, EntityKeys[i], i);
    }
    assert Get(e, EntityKeys[0]) == vs[0] && Get(e, EntityKeys[1]) == vs[1];
    assert Get(e, EntityKeys[2]) == vs[2] && Get(e, EntityKeys[3]) == vs[3];
    assert Get(e, EntityKeys[4]) == vs[4] && Get(e, EntityKeys[5]) == vs[5];
    assert Get(e, EntityKeys[6]) == vs[6] && Get(e, EntityKeys[7]) == vs[7];
    assert Get(e, EntityKeys[8]) == vs[8];
  }

  /** The configuration `os.getenv` supplies; `None` when a variable is unset. */
  datatype Config = Config(tableSasUrl: Option<string>, tableName: Option<string>, logsSasUrl: Option<string>)

  /** A value that is set and not empty, as `if value:` tests it. */
  predicate IsSet(v: Option<string>)
  {
    v.Some? && v.value != ""
  }

  /** A request the metadata store would send. */
  datatype Write =
    | TableInsert(url: string, entity: seq<(string, Value)>)
    | LogUpload(url: string, entity: seq<(string, Value)>)

  /** `_upload_metadata_json_to_logs`'s URL: `{code}.json` in the logs container. */
  function LogBlobUrl(logsSasUrl: string, code: string): (r: Result<string, StoreError>)
    ensures r.Failure? <==> '?' !in logsSasUrl
  {
    match SplitSas(logsSasUrl)
    case Failure(e) => Failure(e)
    case Success((base, sas)) => Success(BlobUrl(base, sas, code + ".json"))
  }

  /** Both table settings are set, so `persist_resume_metadata` inserts into the table. */
  predicate TableOn(cfg: Config)
  {
    IsSet(cfg.tableSasUrl) && IsSet(cfg.tableName)
  }

  /** The requests `persist_resume_metadata` sends, in order, and how it ends. */
  datatype Persisted = Persisted(writes: seq<Write>, result: Result<(), StoreError>)

  /**
   * `persist_resume_metadata`: the table insert when both table settings are
   * set, then the log upload when the logs URL is set. Whether the table
   * service and the logs container accept their request are parameters. Any
   * error, a refused insert included, stops it before the log upload.
   */
  function PersistWrites(originalName: string, code: string, blobUrl: string, pageSize: string,
                         description: string, createdAt: string, cfg: Config,
                         insertOk: bool, logOk: bool): (p: Persisted)
  {
    var entity := MakeEntity(originalName, code, blobUrl, pageSize, createdAt, description);
    LogStep(TableStep(cfg, entity, insertOk), cfg, code, entity, logOk)
  }

  /** The `if table_sas_url and table_name:` step. */
  function TableStep(cfg: Config, entity: seq<(string, Value)>, insertOk: bool): Persisted
  {
    if TableOn(cfg) then
      match ConfiguredInsert(cfg, entity)
      case Failure(e) => Persisted([], Failure(e))
      case Success(url) => Persisted([TableInsert(url, entity)], if insertOk then Success(()) else Failure(InsertRefused))
    else Persisted([], Success(()))
  }

  /** The `if logs_container_sas_url:` step, reached only when the table step did not raise. */
  function LogStep(table: Persisted, cfg: Config, code: string, entity: seq<(string, Value)>, logOk: bool): Persisted
  {
    if table.result.Failure? || !IsSet(cfg.logsSasUrl) then table
    else
      match LogBlobUrl(Strip(cfg.logsSasUrl.value), code)
      case Failure(e) => Persisted(table.writes, Failure(e))
      case Success(url) => Persisted(table.writes + [LogUpload(url, entity)], if logOk then Success(()) else Failure(LogRefused))
  }

  /** The insert URL `persist_resume_metadata` derives from the stripped settings. */
  function ConfiguredInsert(cfg: Config, entity: seq<(string, Value)>): Result<string, StoreError>
    requires TableOn(cfg)
  {
    InsertTableUrl(Strip(cfg.tableSasUrl.value), Strip(cfg.tableName.value), entity)
  }

  /** The table step sends at most the insert, to the derived URL, and succeeds only when it is accepted. */
  lemma TableStepSpec(cfg: Config, entity: seq<(string, Value)>, insertOk: bool)
    ensures var t := TableStep(cfg, entity, insertOk);
      && |t.writes| <= 1
      && (forall i :: 0 <= i < |t.writes| ==> TableOn(cfg) && t.writes[i] == TableInsert(ConfiguredInsert(cfg, entity).value, entity))
      && (t.result.Success? <==> (TableOn(cfg) ==> ConfiguredInsert(cfg, entity).Success? && insertOk))
      && (t.result.Success? ==> |t.writes| == if TableOn(cfg) then 1 else 0)
  {
  }

  /** The log step adds at most the upload, after what the table step sent, and only after a success. */
  lemma LogStepSpec(t: Persisted, cfg: Config, code: string, entity: seq<(string, Value)>, logOk: bool)
    ensures var p := LogStep(t, cfg, code, entity, logOk);
      && (p.writes == t.writes || (IsSet(cfg.logsSasUrl) && t.result.Success?
            && p.writes == t.writes + [LogUpload(LogBlobUrl(Strip(cfg.logsSasUrl.value), code).value, entity)]))
      && (p.result.Success? <==> t.result.Success? && (IsSet(cfg.logsSasUrl) ==> '?' in Strip(cfg.logsSasUrl.value) && logOk))
      && (p.result.Success? && IsSet(cfg.logsSasUrl) ==> p.writes != t.writes)
  {
  }

  /** The two steps together, for any entity. */
  lemma StepsOrder(cfg: Config, entity: seq<(string, Value)>, code: string, insertOk: bool, logOk: bool)
    ensures var p := LogStep(TableStep(cfg, entity, insertOk), cfg, code, entity, logOk);
      && |p.writes| <= 2
      && (forall i :: 0 <= i < |p.writes| ==> p.writes[i].entity == entity)
      && (p.writes != [] && p.writes[0].TableInsert? ==> TableOn(cfg) && p.writes[0].url == ConfiguredInsert(cfg, entity).value)
      && (p.writes != [] && p.writes[|p.writes| - 1].LogUpload? ==>
            && IsSet(cfg.logsSasUrl)
            && p.writes[|p.writes| - 1].url == LogBlobUrl(Strip(cfg.logsSasUrl.value), code).value
            && (TableOn(cfg) ==> insertOk))
  {
    var t := TableStep(cfg, entity, insertOk);
    TableStepSpec(cfg, entity, insertOk);
    LogStepSpec(t, cfg, code, entity, logOk);
  }

  /**
   * Which writes happen: every write carries the entity, the table insert
   * comes first and goes to the derived table URL, the log upload comes last
   * and goes to `{code}.json`, and a log upload is sent only after an
   * accepted insert.
   */
  lemma PersistWritesOrder(originalName: string, code: string, blobUrl: string, pageSize: string,
                           description: string, createdAt: string, cfg: Config, insertOk: bool, logOk: bool)
    ensures var entity := MakeEntity(originalName, code, blobUrl, pageSize, createdAt, description);
      var p := PersistWrites(originalName, code, blobUrl, pageSize, description, createdAt, cfg, insertOk, logOk);
      && |p.writes| <= 2
      && (forall i :: 0 <= i < |p.writes| ==> p.writes[i].entity == entity)
      && (p.writes != [] && p.writes[0].TableInsert? ==> TableOn(cfg) && p.writes[0].url == ConfiguredInsert(cfg, entity).value)
      && (p.writes != [] && p.writes[|p.writes| - 1].LogUpload? ==>
            && IsSet(cfg.logsSasUrl)
            && p.writes[|p.writes| - 1].url == LogBlobUrl(Strip(cfg.logsSasUrl.value), code).value
            && (TableOn(cfg) ==> insertOk))
  {
    StepsOrder(cfg, MakeEntity(originalName, code, blobUrl, pageSize, createdAt, description), code, insertOk, logOk);
  }

  /**
   * The call succeeds exactly when every configured write is well formed and
   * accepted, and then it has sent one write per configured destination, the
   * table insert first.
   */
  lemma PersistWritesSpec(originalName: string, code: string, blobUrl: string, pageSize: string,
                          description: string, createdAt: string, cfg: Config, insertOk: bool, logOk: bool)
    ensures var entity := MakeEntity(originalName, code, blobUrl, pageSize, createdAt, description);
      var p := PersistWrites(originalName, code, blobUrl, pageSize, description, createdAt, cfg, insertOk, logOk);
      && (p.result.Success? <==>
            && (TableOn(cfg) ==> ConfiguredInsert(cfg, entity).Success? && insertOk)
            && (IsSet(cfg.logsSasUrl) ==> '?' in Strip(cfg.logsSasUrl.value) && logOk))
      && (p.result.Success? ==>
            && |p.writes| == (if TableOn(cfg) then 1 else 0) + (if IsSet(cfg.logsSasUrl) then 1 else 0)
            && (TableOn(cfg) ==> p.writes[0].TableInsert?)
            && (IsSet(cfg.logsSasUrl) ==> p.writes[|p.writes| - 1].LogUpload?))
  {
    var entity := MakeEntity(originalName, code, blobUrl, pageSize, createdAt, description);
    var t := TableStep(cfg, entity, insertOk);
    TableStepSpec(cfg, entity, insertOk);
    LogStepSpec(t, cfg, code, entity, logOk);
  }

  /** A refused table insert raises before the log upload: the insert is the only request sent. */
  lemma PersistInsertRefused(originalName: string, code: string, blobUrl: string, pageSize: string,
                             description: string, createdAt: string, cfg: Config, logOk: bool)
    requires TableOn(cfg)
    requires ConfiguredInsert(cfg, MakeEntity(originalName, code, blobUrl, pageSize, createdAt, description)).Success?
    ensures var entity := MakeEntity(originalName, code, blobUrl, pageSize, createdAt, description);
      PersistWrites(originalName, code, blobUrl, pageSize, description, createdAt, cfg, false, logOk)
        == Persisted([TableInsert(ConfiguredInsert(cfg, entity).value, entity)], Failure(InsertRefused))
  {
  }

  /** The entity's PartitionKey is always set, so a table insert is refused only for an empty code. */
  lemma PersistMissingCode(originalName: string, code: string, blobUrl: string, pageSize: string,
                           description: string, createdAt: string, cfg: Config, insertOk: bool, logOk: bool)
    requires TableOn(cfg) && '?' in Strip(cfg.tableSasUrl.value)
    ensures PersistWrites(originalName, code, blobUrl, pageSize, description, createdAt, cfg, insertOk, logOk)
        == Persisted([], Failure(MissingKeys))
        <==> code == ""
  {
    MakeEntityFields(originalName, code, blobUrl, pageSize, createdAt, description);
  }

  /** The log upload goes to `{code}.json` in the logs container, with the container's SAS query. */
  lemma LogBlobUrlSplit(logsSasUrl: string, code: string)
    requires '?' in logsSasUrl && '?' !in code
    ensures var (base, sas) := SplitSas(logsSasUrl).value;
      && LogBlobUrl(logsSasUrl, code).Success?
      && SplitSas(LogBlobUrl(logsSasUrl, code).value) == Success((RStripChar(base, '/') + "/" + code + ".json", sas))
  {
    var (base, sas) := SplitSas(logsSasUrl).value;
    assert '?' !in code + ".json";
    BlobUrlSplit(base, sas, code + ".json");
    assert LogBlobUrl(logsSasUrl, code).value == BlobUrl(base, sas, code + ".json");
    assert RStripChar(base, '/') + "/" + (code + ".json") == RStripChar(base, '/') + "/" + code + ".json";
  }

  // ---------------------------------------------------------------------------
  // _update_log
  // ---------------------------------------------------------------------------

  /** What `_update_log` returns and the metadata writes it attempts on the way. */
  datatype LogResult = LogResult(blobUrl: string, code: string, metadata: Persisted)

  /**
   * `_update_log`: the PDF goes to `{slug}-{code}.pdf` in the container; the
   * uuid hex, the timestamp, the configuration and whether each upload is
   * accepted are parameters. A failure to store the metadata is reported and
   * swallowed, so it never changes the result.
   */
  function UpdateLog(apiUrl: string, name: string, description: string, pageSize: string,
                     hex: string, createdAt: string, uploadOk: bool, cfg: Config,
                     insertOk: bool, logOk: bool): (r: Result<LogResult, StoreError>)
    requires IsUuidHex(hex)
  {
    var code := ResumeCode(hex, DefaultCodeLength);
    match PdfBlobUrl(apiUrl, name, code)
    case Failure(e) => Failure(e)
    case Success(blobUrl) =>
      if !uploadOk then Failure(UploadFailed)
      else Success(LogResult(blobUrl, code, PersistWrites(name, code, blobUrl, pageSize, description, createdAt, cfg, insertOk, logOk)))
  }

  /** The PDF's blob name `{slug}-{code}.pdf`; the slug never holds a `?`. */
  function PdfBlobName(name: string, code: string): (r: string)
    ensures '?' !in code ==> '?' !in r
  {
    SlugNoQuery(name);
    Slugify(name) + "-" + code + ".pdf"
  }

  /** The PDF's blob URL in the container the stripped SAS URL names. */
  function PdfBlobUrl(apiUrl: string, name: string, code: string): (r: Result<string, StoreError>)
    ensures r.Failure? <==> '?' !in Strip(apiUrl)
  {
    match SplitSas(Strip(apiUrl))
    case Failure(e) => Failure(e)
    case Success((base, sas)) => Success(BlobUrl(base, sas, PdfBlobName(name, code)))
  }

  /** The PDF's blob URL splits back into the container path, the blob name and the SAS query. */
  lemma PdfBlobUrlSplit(apiUrl: string, name: string, code: string)
    requires '?' in Strip(apiUrl) && '?' !in code
    ensures var (base, sas) := SplitSas(Strip(apiUrl)).value;
      SplitSas(PdfBlobUrl(apiUrl, name, code).value) == Success((RStripChar(base, '/') + "/" + PdfBlobName(name, code), sas))
  {
    var (base, sas) := SplitSas(Strip(apiUrl)).value;
    BlobUrlSplit(base, sas, PdfBlobName(name, code));
  }

  lemma SlugNoQuery(name: string)
    ensures '?' !in Slugify(name)
  {
    SlugifyIsSlug(name);
  }

  /** `_update_log` fails exactly for a container URL without a SAS query or a refused upload. */
  lemma UpdateLogFails(apiUrl: string, name: string, description: string, pageSize: string,
                       hex: string, createdAt: string, uploadOk: bool, cfg: Config, insertOk: bool, logOk: bool)
    requires IsUuidHex(hex)
    ensures UpdateLog(apiUrl, name, description, pageSize, hex, createdAt, uploadOk, cfg, insertOk, logOk).Failure? <==>
      '?' !in Strip(apiUrl) || !uploadOk
  {
  }

  /**
   * On success the blob is `{slug}-{code}.pdf` under the container path, with
   * the container's SAS query, the code is the first eight hex digits, and the
   * metadata stored records that code and that URL.
   */
  lemma UpdateLogBlobUrl(apiUrl: string, name: string, description: string, pageSize: string,
                         hex: string, createdAt: string, cfg: Config, insertOk: bool, logOk: bool)
    requires IsUuidHex(hex) && '?' in Strip(apiUrl)
    ensures var r := UpdateLog(apiUrl, name, description, pageSize, hex, createdAt, true, cfg, insertOk, logOk);
      var (base, sas) := SplitSas(Strip(apiUrl)).value;
      && r.Success?
      && r.value.code == hex[..8]
      && SplitSas(r.value.blobUrl) == Success((RStripChar(base, '/') + "/" + PdfBlobName(name, hex[..8]), sas))
      && r.value.metadata == PersistWrites(name, hex[..8], r.value.blobUrl, pageSize, description, createdAt, cfg, insertOk, logOk)
  {
    var code := ResumeCode(hex, DefaultCodeLength);
    assert code == hex[..8];
    assert '?' !in code;
    PdfBlobUrlSplit(apiUrl, name, code);
  }

  /**
   * A failure to store the metadata is swallowed: the returned URL depends
   * neither on the configuration nor on whether the metadata writes are accepted.
   */
  lemma UpdateLogIgnoresMetadata(apiUrl: string, name: string, description: string, pageSize: string,
                                 hex: string, createdAt: string, uploadOk: bool,
                                 cfg: Config, insertOk: bool, logOk: bool,
                                 cfg': Config, insertOk': bool, logOk': bool)
    requires IsUuidHex(hex)
    ensures var r := UpdateLog(apiUrl, name, description, pageSize, hex, createdAt, uploadOk, cfg, insertOk, logOk);
      var r' := UpdateLog(apiUrl, name, description, pageSize, hex, createdAt, uploadOk, cfg', insertOk', logOk');
      r.Success? == r'.Success? && (r.Success? ==> r.value.blobUrl == r'.value.blobUrl && r.value.code == r'.value.code)
  {
  }

  /** The blob name's two parts: a slug, and eight lowercase hex digits. */
  lemma UpdateLogBlobName(name: string, hex: string)
    requires IsUuidHex(hex)
    ensures IsSlug(Slugify(name))
    ensures var code := ResumeCode(hex, DefaultCodeLength);
      |code| == 8 && forall i :: 0 <= i < 8 ==> '0' <= code[i] <= '9' || 'a' <= code[i] <= 'f'
  {
    SlugifyIsSlug(name);
  }
}
