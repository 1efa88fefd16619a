# Automated Resume Updater — a Dafny model of its deterministic core

This project models the parts of the resume updater that do not depend on the
network: the HTML rendering of one resume section, the paging loop that lists
stored resumes from the Azure table, the URLs and table entity built when a
resume PDF is stored, the PDF service's settings checks, HTML document and blob
name, the `slugify` and resume-code helpers, and the shape checks applied to JSON
typed at the terminal.

Each module is one concern:

| module | file | models |
|---|---|---|
| `Wrappers` | wrappers.dfy | `Option` and `Result` |
| `Text` | text.dfy | the Python `str` operations the code uses (`strip`, `strip(c)`, `rstrip(c)`, ASCII `lower`, `split(c, 1)`, `join`, `str(int)`) |
| `HtmlEscape` | html_escape.dfy | `html.escape` with `quote=True`, with its inverse |
| `Json` | json.dfy | JSON values and dicts in insertion order, `d.get`, truthiness, `or`, `str`/`repr` and `json.dumps` |
| `Identifiers` | identifiers.dfy | `slugify` and `generate_resume_code` |
| `SectionRenderer` | section_renderer.dfy | `render_section` |
| `MetadataStore` | metadata_store.dfy | SAS splitting, table and blob URLs, the stored entity, `persist_resume_metadata` and `_update_log` |
| `ResumeListing` | resume_listing.dfy | `get_all_resumes` |
| `PdfService` | pdf_service.dfy | `generate_resume_pdf` |
| `JsonInput` | json_input.dfy | `read_json_list_of_dicts` |

## How things are modelled

- **Environment.** Environment variables, the clock (`datetime.now`) and
  `uuid.uuid4().hex` are parameters.
- **HTTP calls.** Whether an HTTP call is accepted is a parameter, or the call
  is a scripted response. Every upload, post and insert the core makes has
  such a parameter, and a refused call raises as in the source. For the
  listing, a response carries its decoded JSON body and its two continuation
  headers.
- **Raised exceptions.** A raised exception or `sys.exit(1)` is a `Failure`
  naming the cause.
- **`render_section`.** Its Python version appends f-strings to a list. The
  model keeps each f-string as its literal markup (`Markup`) and its escaped
  holes (`Escaped`). The method `RenderSection` follows the source's loops and
  is proved equal to the specification function `Render`.
- **`get_all_resumes`.** It is the method `GetAllResumes` with its `while`
  loop. It is proved to equal `ListResumes`, a recursive description of which
  page the loop stops at and what it collects. It also returns the queries it
  sends, in order.

## Model

| member | source | states |
|---|---|---|
| Text.Strip | services/metadata_service.py:321-322 | `strip()` leaves no whitespace at either end |
| Text.StripRange | services/metadata_service.py:321-322 | `strip()` removes only whitespace, and only from the two ends: the result is a slice of the input |
| Text.StripCharRange | utils/identifiers.py:8 | `strip(c)` removes only copies of `c` from the two ends: the result is a slice |
| Text.RStripChar | services/metadata_service.py:89 | `rstrip(c)` returns a prefix of its input that does not end in `c`, and every character it removes is a `c` |
| Text.Lower | utils/identifiers.py:5 | `lower()` keeps the length and lowers each ASCII capital |
| Text.SplitFirst | services/metadata_service.py:47 | `split(c, 1)`: there is no split exactly when `c` is absent; otherwise head + `c` + tail is the input and the head holds no `c` |
| Text.SplitFirstOfJoin | services/metadata_service.py:47 | splitting at the first `c` undoes joining a `c`-free head with `c` |
| Text.NatToDecimal | services/metadata_service.py:343 | the decimal digits of a natural number spell its value, with a leading `0` only for 0 |
| Text.IntToDecimal | services/metadata_service.py:343 | `str(i)` starts with `-` exactly when `i` is negative, and the digits after the sign spell the magnitude of `i`, with no leading zero unless `i` is 0 |
| HtmlEscape.Escape | services/metadata_service.py:319 | the escaped text contains no `<`, `>`, `"` or `'` and is at least as long as the input |
| HtmlEscape.UnescapeEscape | services/metadata_service.py:319 | escaping loses nothing: unescaping gives back the original text |
| HtmlEscape.Unescape | services/metadata_service.py:319 | the inverse of `html.escape` that makes its losslessness statable; see `HtmlEscape.UnescapeEscape` |
| HtmlEscape.EscapeInjective | pdf_service.py:22-23 | two texts with the same escaped form are equal |
| HtmlEscape.EscapeAppend | services/metadata_service.py:354 | escaping distributes over concatenation |
| HtmlEscape.EscapePlain | services/metadata_service.py:319 | text without the five special characters is left unchanged |
| Json.LookupSpec | services/metadata_service.py:342 | `key in d` holds exactly when some pair has the key, and the value found is that pair's |
| Json.LookupFirst | services/metadata_service.py:224-229 | `d[key]` is the value of the first pair with the key |
| Json.Or | services/metadata_service.py:224-225 | `a or b` is `a` when `a` is truthy and otherwise `b` |
| Json.PyStr | services/metadata_service.py:373 | `str(v)`: a string is itself, any other value its `repr`; used by every `str()` of a value in `render_section` |
| Json.PyRepr | services/metadata_service.py:367 | `repr` of `None`, booleans, integers, strings, lists and dicts as Python writes them |
| Json.Dumps | services/metadata_service.py:332 | `json.dumps(v, ensure_ascii=False)` with the default separators; see `SectionRenderer.DictRowsInOrder` |
| Identifiers.ReplaceRuns | utils/identifiers.py:6 | the first substitution leaves only `[a-z0-9-]`, no `--`, and the same alphanumerics in the same order; where the hyphens go is stated by `Identifiers.ReplaceRunsJoins` |
| Identifiers.ReplaceRunsKeeps | utils/identifiers.py:6 | alphanumerics are copied through the substitution unchanged, whatever follows them |
| Identifiers.ReplaceRunsSeparator | utils/identifiers.py:6 | a whole run of other characters, up to the next alphanumeric, becomes exactly one `-` |
| Identifiers.ReplaceRunsJoins | utils/identifiers.py:6 | two alphanumeric words around such a run come out as the first word, one `-`, the second word |
| Identifiers.SqueezeIdentity | utils/identifiers.py:7 | the second substitution changes nothing on text without `--` |
| Identifiers.SlugifyIsSlug | utils/identifiers.py:4-8 | the slug is non-empty, uses only `[a-z0-9-]`, has no hyphen at either end and no `--` |
| Identifiers.Slugify | utils/identifiers.py:4-8 | `slugify(value)`; its properties are `Identifiers.SlugifyIsSlug`, `SlugifyAlnums`, `SlugifyJoins`, `SlugifySlug` and `SlugifyIdempotent` |
| Identifiers.SlugifyAlnums | utils/identifiers.py:4-8 | the slug keeps the lowered input's alphanumerics in order, or is "resume" when there are none |
| Identifiers.SlugifyJoins | utils/identifiers.py:4-8 | two words separated by other characters, as in "Jane Doe", give the lowered first word, `-`, the lowered second word ("jane-doe") |
| Identifiers.SlugifyBlank | utils/identifiers.py:5-8 | empty or whitespace-only input gives "resume" |
| Identifiers.SlugifySlug | utils/identifiers.py:4-8 | a string that is already a slug is returned unchanged |
| Identifiers.SlugifyIdempotent | utils/identifiers.py:4-8 | applying `slugify` twice gives the same result as applying it once |
| Identifiers.ResumeCode | utils/identifiers.py:10-11 | the code is a prefix of the 32-character lowercase hex string, of Python slice length for `[:n]` (min(n, 32) for n >= 0), and uses only hex digits |
| SectionRenderer.DictRows | services/metadata_service.py:326-333 | a dict section holds five pieces per key/value pair |
| SectionRenderer.ListItems | services/metadata_service.py:371-374 | a plain list section holds three pieces per item |
| SectionRenderer.RenderSection | services/metadata_service.py:315-376 | the method with the source's loops returns exactly `Render(title, content)` |
| SectionRenderer.Render | services/metadata_service.py:315-376 | the specification of `render_section`: the pieces of `SectionPieces` joined, markup as written and text escaped; see `SectionRenderer.RenderShell`, `OnlyMarkupBrackets` and `SectionTagged` |
| SectionRenderer.SectionPieces | services/metadata_service.py:315-376 | nothing for `None`; otherwise the heading shell around `BodyPieces`; see `SectionRenderer.RenderShell` |
| SectionRenderer.BodyPieces | services/metadata_service.py:320-374 | the body for a string, a dict, a list of dicts or any other list; see `SectionRenderer.AppendBody`, `RenderText` and `BodyTagged` |
| SectionRenderer.AppendBody | services/metadata_service.py:320-374 | the body appended for a string, dict, list of dicts or other list is `BodyPieces(content)` |
| SectionRenderer.AppendDictRows | services/metadata_service.py:326-333 | the `for k, v in content.items()` loop appends `DictRows(fields)` |
| SectionRenderer.AppendListItems | services/metadata_service.py:372-373 | the `for item in content` loop appends `ListItems(items)` |
| SectionRenderer.AppendEntries | services/metadata_service.py:338-369 | the loop over entry dicts appends one `<div class="item">` block per entry, in order |
| SectionRenderer.EntryBlock | services/metadata_service.py:339-369 | one entry's block is its heading, meta line, bullet lists and remaining keys inside `<div class="item">…</div>` |
| SectionRenderer.AppendHeadingAndMeta | services/metadata_service.py:340-356 | the heading joins the first truthy title key and the first truthy organisation key; the meta line joins every truthy period, dates, duration and location value |
| SectionRenderer.AppendRemaining | services/metadata_service.py:363-368 | the keys no other part consumes become a `<dl>`, and only when there are any |
| SectionRenderer.AppendFirstTruthy | services/metadata_service.py:341-348 | the loop with `break` appends the value of the first key present with a truthy value, or nothing |
| SectionRenderer.CollectTruthy | services/metadata_service.py:349-352 | the loop without `break` collects every truthy value in key order |
| SectionRenderer.AppendBulletLists | services/metadata_service.py:357-362 | each bullets, highlights or responsibilities key holding a non-empty list becomes its own `<ul>` |
| SectionRenderer.AppendPlainRows | services/metadata_service.py:366-367 | the remaining pairs become `<dt>`/`<dd>` rows of `str(v)` |
| SectionRenderer.RenderShell | services/metadata_service.py:315-376 | the output is empty exactly for `None`; otherwise it is the escaped title heading, the body and `</div>` |
| SectionRenderer.RenderText | services/metadata_service.py:320-322 | a string section has a `<p>` exactly when the stripped text is non-empty, and the paragraph holds the stripped text escaped |
| SectionRenderer.DictRowsInOrder | services/metadata_service.py:326-333 | row `i` is `<dt>`, key `i` escaped, then for a string value `</dt><dd>`, the value escaped, `</dd>`, and for any other value `</dt><dd><pre>`, its JSON escaped, `</pre></dd>` |
| SectionRenderer.ListItemsInOrder | services/metadata_service.py:372-373 | item `i` of a plain list becomes `<li>` + escaped `str(item)` + `</li>` at its position |
| SectionRenderer.FirstTruthyPicksFirst | services/metadata_service.py:341-344 | the heading takes the value of the first truthy key in the key order |
| SectionRenderer.FirstTruthyNone | services/metadata_service.py:341-348 | nothing is taken exactly when no key is present with a truthy value |
| SectionRenderer.RoleWins | services/metadata_service.py:341-344 | a truthy `role` always starts the heading |
| SectionRenderer.TruthyValuesSpec | services/metadata_service.py:349-352 | the meta values are at most one per key, empty exactly when no key is truthy, and are exactly the truthy values |
| SectionRenderer.TruthyValuesAppend | services/metadata_service.py:349-352 | the values for `a + b` are those for `a` followed by those for `b`: key order is kept and each key contributes separately |
| SectionRenderer.TruthyValuesOne | services/metadata_service.py:350-352 | one key contributes `str()` of its value exactly when it is truthy, and nothing otherwise |
| SectionRenderer.OnlyLocation | services/metadata_service.py:350-356 | an entry whose only meta key is `location` gets a meta line holding just the location |
| SectionRenderer.BulletListsEmpty | services/metadata_service.py:357-362 | no `<ul>` is written exactly when no bullet key holds a non-empty list |
| SectionRenderer.RemainingSpec | services/metadata_service.py:363 | a pair is in the remaining dict exactly when it is in the entry and its key is not reserved |
| SectionRenderer.RemainingAppend | services/metadata_service.py:363 | filtering the remaining keys keeps insertion order |
| SectionRenderer.MarkupOnly | services/metadata_service.py:315-376 | a piece is kept exactly when it is a markup piece of the input |
| SectionRenderer.MarkupOnlyAppend | services/metadata_service.py:315-376 | keeping the markup distributes over concatenation, so the markup keeps its order |
| SectionRenderer.OnlyMarkupBrackets | services/metadata_service.py:319-373 | every `<`, `>`, `"` and `'` in the output comes from the source's own markup, never from the content |
| SectionRenderer.SectionTagged | services/metadata_service.py:315-376 | every literal piece of markup in a rendered section is one of the source's fixed tags |
| SectionRenderer.BodyTagged | services/metadata_service.py:320-374 | the same, for the body |
| SectionRenderer.DictRowsTagged | services/metadata_service.py:326-333 | the same, for dict rows |
| SectionRenderer.ListItemsTagged | services/metadata_service.py:371-374 | the same, for plain list items |
| SectionRenderer.PlainRowsTagged | services/metadata_service.py:366-367 | the same, for the remaining rows |
| SectionRenderer.BulletListsTagged | services/metadata_service.py:357-362 | the same, for bullet lists |
| SectionRenderer.EntryBlocksTagged | services/metadata_service.py:338-369 | the same, for entry blocks |
| MetadataStore.SplitSas | services/metadata_service.py:41-47 | a URL without `?` is refused; otherwise base + `?` + query is the URL and the base has no `?` |
| MetadataStore.SplitSasCompose | services/metadata_service.py:87-89 | splitting undoes composing a `?`-free base with a query |
| MetadataStore.BlobUrl | services/metadata_service.py:89 | the URL of a blob in a container; see `MetadataStore.BlobUrlSplit` |
| MetadataStore.BlobUrlSplit | services/metadata_service.py:87-89 | a blob URL splits back into the container path with `/` and the blob name, and the SAS query unchanged |
| MetadataStore.NetlocEnd | services/metadata_service.py:50 | the host part ends at the first `/`, `?` or `#` after the scheme |
| MetadataStore.UrlPath | services/metadata_service.py:50-51 | the path of a URL holds no `?` and no `#` |
| MetadataStore.UrlPathHttps | services/metadata_service.py:50-51 | the path of `https://host/path` is `/path` |
| MetadataStore.TableUrl | services/metadata_service.py:50-62 | the table URL derived from an account- or table-level SAS URL; see the four `MetadataStore.TableUrl…` lemmas |
| MetadataStore.TableUrlAccount | services/metadata_service.py:180-183 | an account-level URL, with or without a trailing `/`, gets `/table` appended |
| MetadataStore.TableUrlTable | services/metadata_service.py:180-181 | a URL that already names the table is kept |
| MetadataStore.TableUrlParens | services/metadata_service.py:180-186 | a URL naming the table with `()` loses the `()` |
| MetadataStore.TableUrlIdempotent | services/metadata_service.py:180-186 | for an account-level base `https://host` without a path, deriving the table URL again from its own result changes nothing |
| MetadataStore.InsertTableUrl | services/metadata_service.py:40-64 | the URL `_insert_table_entity` posts to; see `MetadataStore.InsertTableUrlErrors`, `InsertTableUrlSplit`, `InsertTableUrlAccount` and `InsertTableUrlTableLevel` |
| MetadataStore.InsertTableUrlErrors | services/metadata_service.py:40-64 | a URL without `?` is refused first, then a falsy key; a non-empty table name is always accepted, and an empty one is the only cause of the table-name error |
| MetadataStore.TableUrlNoQuery | services/metadata_service.py:50-62 | the table URL of a `?`-free base and name holds no `?` |
| MetadataStore.InsertTableUrlSplit | services/metadata_service.py:47-64 | the insert URL splits back into the derived table URL and the configured SAS query |
| MetadataStore.InsertTableUrlAccount | services/metadata_service.py:47-64 | an account-level `https://host?sas` posts to `https://host/name?sas` |
| MetadataStore.InsertTableUrlTableLevel | services/metadata_service.py:47-64 | a table-level `https://host/name()?sas` posts to `https://host/name?sas` |
| MetadataStore.MakeEntity | services/metadata_service.py:19-29 | the entity has the nine keys in source order |
| MetadataStore.MakeEntityFields | services/metadata_service.py:17-29 | each key holds its value: the partition key is "by-code", the row key and code are the code, and the name slug is `slugify(original_name)` |
| MetadataStore.LogBlobUrl | services/metadata_service.py:83-89 | the log upload fails exactly when the logs URL has no `?` |
| MetadataStore.LogBlobUrlSplit | services/metadata_service.py:87-89 | the log blob is `code.json` in the logs container, with the SAS query unchanged |
| MetadataStore.PersistWrites | services/metadata_service.py:9-38 | `persist_resume_metadata`: the requests sent and how the call ends; see `MetadataStore.PersistWritesSpec`, `PersistWritesOrder` and `PersistInsertRefused` |
| MetadataStore.TableStepSpec | services/metadata_service.py:31-34 | the table step sends at most the insert, to the derived URL, and succeeds exactly when it is unconfigured or well formed and accepted |
| MetadataStore.LogStepSpec | services/metadata_service.py:36-38 | the log step adds at most the upload after what came before, only after a success, and succeeds exactly when it is unconfigured or well formed and accepted |
| MetadataStore.PersistWritesOrder | services/metadata_service.py:31-38 | at most two writes, each carrying the entity; the insert first, to the derived table URL; the log upload last, to `{code}.json`, and only after an accepted insert |
| MetadataStore.PersistWritesSpec | services/metadata_service.py:31-38 | the call succeeds exactly when each configured write is well formed and accepted; it then sent one table insert when both table settings are set, first, and one log upload when the logs URL is set, last |
| MetadataStore.PersistInsertRefused | services/metadata_service.py:77-81 | a refused table insert raises before the log upload: the insert is the only request sent and the call fails |
| MetadataStore.PersistMissingCode | services/metadata_service.py:44-45 | with the table configured, the insert is refused for a missing key exactly when the code is empty |
| MetadataStore.PdfBlobName | services/metadata_service.py:133-135 | the blob name `slug-code.pdf` has no `?` when the code has none |
| MetadataStore.PdfBlobUrl | services/metadata_service.py:126-137 | the upload URL fails exactly when the stripped container URL has no `?` |
| MetadataStore.PdfBlobUrlSplit | services/metadata_service.py:128-137 | the upload URL is the container path with `/slug-code.pdf`, and the SAS query unchanged |
| MetadataStore.SlugNoQuery | utils/identifiers.py:4-8 | a slug never contains `?` |
| MetadataStore.UpdateLog | services/metadata_service.py:117-162 | `_update_log`; see `MetadataStore.UpdateLogFails`, `UpdateLogBlobUrl` and `UpdateLogIgnoresMetadata` |
| MetadataStore.UpdateLogFails | services/metadata_service.py:126-162 | `_update_log` fails exactly when the container URL has no `?` or the upload fails |
| MetadataStore.UpdateLogBlobUrl | services/metadata_service.py:128-162 | on success the code is the first 8 hex characters, the returned URL splits into the container path with `/slug-code.pdf` and the SAS query, and the metadata stored is that code and that URL |
| MetadataStore.UpdateLogIgnoresMetadata | services/metadata_service.py:151-162 | neither the metadata settings nor whether the metadata writes are accepted change the outcome: a metadata failure is swallowed |
| MetadataStore.UpdateLogBlobName | services/metadata_service.py:133-135 | the blob name's slug is a slug, and its code is 8 lowercase hex characters |
| ResumeListing.Entries | services/metadata_service.py:220-222 | an array is accepted exactly when every item is a dict, and entry `i` is item `i`'s dict; an empty dict or string gives no entries and a non-empty one fails; `None`, a boolean or a number cannot be iterated |
| ResumeListing.PageRecordsOfList | services/metadata_service.py:219-230 | a page whose `value` is a list of dicts gives one record per dict, in order, each the projection of its dict |
| ResumeListing.PageRecordsEmpty | services/metadata_service.py:219-221 | an empty body, or a payload without `value`, gives no records |
| ResumeListing.ProjectAll | services/metadata_service.py:222-230 | record `i` is the projection of entry `i` |
| ResumeListing.Project | services/metadata_service.py:223-230 | the record kept for one entity; see `ResumeListing.ProjectAll` and `PersistedRecord` |
| ResumeListing.QueriesUpTo | services/metadata_service.py:202-211 | query `k` carries the page size, and carries the previous response's tokens from the second query on |
| ResumeListing.StopPage | services/metadata_service.py:235-239 | the page the loop stops at is one of the responses from `k` on |
| ResumeListing.ListFrom | services/metadata_service.py:202-239 | the listing from page `k` on; see `ResumeListing.ListFromSpec` |
| ResumeListing.ListResumes | services/metadata_service.py:164-241 | what `get_all_resumes` returns; see `ResumeListing.GetAllResumes` |
| ResumeListing.GetAllResumes | services/metadata_service.py:164-241 | the method returns `[]` without querying when unconfigured, fails without querying when the URL has no SAS query, and otherwise returns `ListResumes` after sending exactly the queries up to the stopping page |
| ResumeListing.FetchAll | services/metadata_service.py:197-241 | the `while True` loop returns the result of the listing from page 0 and sends one query per page read |
| ResumeListing.DecodePage | services/metadata_service.py:213-233 | one iteration decodes the response's records, or fails, and reads its continuation tokens |
| ResumeListing.StopPageSpec | services/metadata_service.py:202-239 | every page before the stopping one succeeded, carried both tokens and left `max_pages` unreached; the stopping page failed, lacked a token or reached `max_pages` |
| ResumeListing.AtMostMaxPages | services/metadata_service.py:235-239 | at most `max_pages` requests are sent, and always at least one |
| ResumeListing.OnePage | services/metadata_service.py:235-239 | with `max_pages` at most 1 the result is exactly the first page's |
| ResumeListing.ListFromSpec | services/metadata_service.py:202-241 | all or nothing: the listing fails exactly when the stopping page failed, with that page's error, and otherwise returns every page's records concatenated in order |
| ResumeListing.QueryTokens | services/metadata_service.py:202-233 | the first query has no tokens; every later query has both tokens of the previous response |
| ResumeListing.PersistedRecord | services/metadata_service.py:223-230 | a stored entity is listed back with its code and original name, or "resume" when the name is empty |
| PdfService.DocumentMarkupFixed | pdf_service.py:22-46 | the document holds exactly the template's angle brackets and quotes, whatever the name and description |
| PdfService.DocumentInjective | pdf_service.py:22-46 | the document determines the name and description it was built from |
| PdfService.HtmlDocument | pdf_service.py:22-46 | the HTML document with the escaped name and description; see `PdfService.DocumentMarkupFixed` and `DocumentInjective` |
| PdfService.ReplaceBadRuns | pdf_service.py:94 | the substitution leaves only `[a-zA-Z0-9_-]` and keeps the name's letters, digits and hyphens in order and case; where the `_` go is stated by `PdfService.ReplaceBadRunsJoins` |
| PdfService.ReplaceBadRunsKeeps | pdf_service.py:94 | kept characters, underscores and hyphens included, are copied through unchanged, whatever follows them |
| PdfService.ReplaceBadRunsRun | pdf_service.py:94 | a whole run of other characters, up to the next kept one, becomes exactly one `_` |
| PdfService.ReplaceBadRunsJoins | pdf_service.py:94 | two kept words around such a run come out as the first word, one `_`, the second word |
| PdfService.BlobBase | pdf_service.py:94 | the blob's base name; see `PdfService.BlobBaseSpec`, `BlobBaseJoins` and `BlobBaseIdempotent` |
| PdfService.BlobBaseJoins | pdf_service.py:94 | a name like "My CV" gives "My_CV": the words keep their case and are joined by one `_` |
| PdfService.BlobBaseSpec | pdf_service.py:94 | the base name is non-empty, uses only `[a-zA-Z0-9_-]`, has no `_` at either end, and keeps the name's letters, digits and hyphens; it is "resume" when there are none |
| PdfService.BlobBaseIdempotent | pdf_service.py:94 | sanitising a base name again changes nothing |
| PdfService.BlobName | pdf_service.py:95 | the blob name has no `?` |
| PdfService.SettingsCheckedFirst | pdf_service.py:14-20 | a missing API key fails first, then a missing container URL, and neither sends a request; otherwise the first request renders the escaped document |
| PdfService.GenerateResumePdf | pdf_service.py:8-115 | `generate_resume_pdf`: the requests sent and how the call ends; see `PdfService.SettingsCheckedFirst`, `GenerateSuccess` and `OutputPathUnused` |
| PdfService.GenerateSuccess | pdf_service.py:85-110 | the call succeeds exactly when both settings are set, both requests succeed and the stripped container URL has a `?`; it then returns the upload URL: the container path with `/base.pdf`, and the SAS query unchanged |
| PdfService.OutputPathUnused | pdf_service.py:85-116 | `output_path` never affects the outcome: the local-file branch is unreachable |
| JsonInput.ReadJsonListOfDicts | utils/json_input.py:5-33 | a returned list holds only objects and is the decoded array itself or `[obj]`; `[]` gives `[]`, not `None` |
| JsonInput.BlankInput | utils/json_input.py:6-12 | blank input gives `None` when empty input is allowed and an error otherwise |
| JsonInput.DecodedShapes | utils/json_input.py:14-33 | undecodable input is an error; an object is wrapped only when single objects are allowed; a scalar is an error; an array is returned exactly when every item is an object |

## Left out

- HTTP traffic is not modelled: `requests.get/post/put/delete`, headers, timeouts and error texts. Each call's acceptance is a parameter, or the call is a scripted response.
- Environment lookups (`os.getenv`), `datetime.now` and `uuid.uuid4` are parameters.
- Request bodies are not modelled. This covers the JSON instructions and multipart files sent to the renderer, `json.dumps(entity)` sent to the table, and the UTF-8 encoding of uploads.
- `quote()` percent-encoding of the continuation tokens is not modelled. A query keeps its tokens as a pair, and the `$filter`/`$top` string is kept as the page size.
- `urlparse` is modelled only as far as the path goes. It does not strip leading spaces and control characters or unsafe bytes, split off `;params`, or validate ports. `MetadataStore.UrlPath` never fails, while `urlparse` raises `ValueError` for a host with an unbalanced `[` or `]`.
- `lower()` is ASCII only: non-ASCII case mappings (some of which lower to ASCII letters) are not modelled.
- Python `repr` of strings escapes only backslash, quote, newline, carriage return and tab. Other non-printable characters are not modelled.
- Floats are absent. JSON numbers are integers.
- `improve_text_with_openai` is not part of this model: it calls an external service with a floating-point temperature.
- `delete_resume_blob`, `_upload_file` and the interactive prompts of main.py are not part of this model: they are I/O only.
- In `read_json_list_of_dicts`, the `input()` prompt and the `stderr` messages are not modelled. `json.loads` is a parameter (`None` when it raises).
- The local file write in `generate_resume_pdf` is not modelled, because that branch is unreachable (`PdfService.OutputPathUnused`).
- ResumeListing.GetAllResumes: requires the scripted responses to make the loop stop. With an unbounded `max_pages` and a service that always returns tokens, the Python loop never ends.
- MetadataStore.UpdateLog: `generate_resume_code()` is given the uuid hex as a parameter, which must be 32 lowercase hex characters.
- `PdfService` reuses the SAS split and blob URL composition of `MetadataStore`. The two source files spell out the same expressions.
