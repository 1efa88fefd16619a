/**
 * pdf_service.py: `generate_resume_pdf(name, description, output_path,
 * page_size)`. The settings `NUTRIENT_API_KEY` and `AZURE_CONTAINER_SAS_URL`
 * are parameters; the two HTTP calls (the render request and the blob upload)
 * are recorded as requests and their success is a parameter.
 */
module PdfService {
  import opened Wrappers
  import opened Text
  import opened HtmlEscape
  import MetadataStore

  // ---------------------------------------------------------------------------
  // The HTML document sent for rendering
  // ---------------------------------------------------------------------------

  /** The document up to the opening `<h1>`. */
  const DocHead: string :=
    "<!doctype html>\n"
    + "                <html>\n"
    + "                  <head>\n"
    + "                    <meta charset=\"utf-8\" />\n"
    + "                    <title>Resume</title>\n"
    + "                    <style>\n"
    + "                      body { font-family: system-ui, -apple-system, Segoe UI, Roboto, Arial, sans-serif; margin: 2rem; }\n"
    + "                      h1 { margin-bottom: 0.25rem; }\n"
    + "                      .subtitle { color: #555; margin-top: 0; }\n"
    + "                      .section { margin-top: 1.5rem; }\n"
    + "                      pre { white-space: pre-wrap; }\n"
    + "                    </style>\n"
    + "                  </head>\n"
    + "                  <body>\n"
    + "                    <h1>"

  /** From `</h1>` to the opening `<pre>`. */
  const DocMiddle: string :=
    "</h1>\n"
    + "                    <p class=\"subtitle\">Automated Resume</p>\n"
    + "                    <div class=\"section\">\n"
    + "                      <h2>About</h2>\n"
    + "                      <pre>"

  /** From `</pre>` to the end. */
  const DocTail: string :=
    "</pre>\n"
    + "                    </div>\n"
    + "                  </body>\n"
    + "                </html>"

  /** The f-string with the escaped name in the heading and the escaped description in the `<pre>`. */
  function HtmlDocument(name: string, description: string): string
  {
    DocHead + Escape(name) + DocMiddle + Escape(description) + DocTail
  }

  /**
   * Name and description appear only escaped: the document holds exactly the
   * angle brackets and quotes of the template, whatever the inputs.
   */
  lemma DocumentMarkupFixed(name: string, description: string, c: char)
    requires c == '<' || c == '>' || c == '"' || c == '\''
    ensures Count(c, HtmlDocument(name, description)) == Count(c, DocHead) + Count(c, DocMiddle) + Count(c, DocTail)
  {
    CountAppend(c, DocHead, Escape(name));
    CountAppend(c, DocHead + Escape(name), DocMiddle);
    CountAppend(c, DocHead + Escape(name) + DocMiddle, Escape(description));
    CountAppend(c, DocHead + Escape(name) + DocMiddle + Escape(description), DocTail);
  }

  /** Two holes filled with `<`-free text, each followed by text starting with `<`, are read back uniquely. */
  lemma {:induction false} HolesInjective(h: string, m: string, t: string, x: string, y: string, x': string, y': string)
    requires h + x + m + y + t == h + x' + m + y' + t
    requires '<' !in x && '<' !in y && '<' !in x' && '<' !in y'
    requires m != [] && m[0] == '<' && t != [] && t[0] == '<'
    ensures x == x' && y == y'
  {
    var rest := x + m + y + t;
    var rest' := x' + m + y' + t;
    assert h + x + m + y + t == h + rest;
    assert h + x' + m + y' + t == h + rest';
    assert rest == (h + rest)[|h|..];
    assert rest' == (h + rest')[|h|..];
    assert rest == x + (m + y + t) && rest' == x' + (m + y' + t);
    SameHead(x, m + y + t, x', m + y' + t, '<');
    assert m + y + t == rest[|x|..] && m + y' + t == rest'[|x'|..];
    assert y + t == (m + (y + t))[|m|..] && y' + t == (m + (y' + t))[|m|..];
    assert m + y + t == m + (y + t) && m + y' + t == m + (y' + t);
    SameHead(y, t, y', t, '<');
  }

  /** The document determines the name and the description it was built from. */
  lemma DocumentInjective(name: string, description: string, name': string, description': string)
    requires HtmlDocument(name, description) == HtmlDocument(name', description')
    ensures name == name' && description == description'
  {
    assert DocMiddle[0] == '<' && DocTail[0] == '<';
    HolesInjective(DocHead, DocMiddle, DocTail, Escape(name), Escape(description), Escape(name'), Escape(description'));
    EscapeInjective(name, name');
    EscapeInjective(description, description');
  }

  // ---------------------------------------------------------------------------
  // The blob name
  // ---------------------------------------------------------------------------

  /** The characters `[a-zA-Z0-9_-]` the substitution keeps. */
  predicate IsBlobChar(c: char)
  {
    'a' <= c <= 'z' || 'A' <= c <= 'Z' || '0' <= c <= '9' || c == '_' || c == '-'
  }

  /** The kept characters other than `_`, in order: what the name contributes. */
  function Significant(s: string): string
  {
    if s == [] then []
    else (if IsBlobChar(s[0]) && s[0] != '_' then [s[0]] else []) + Significant(s[1..])
  }

  lemma {:induction false} SignificantAppend(a: string, b: string)
    ensures Significant(a + b) == Significant(a) + Significant(b)
  {
    if a == [] {
      assert a + b == b;
    } else {
      assert (a + b)[1..] == a[1..] + b;
      SignificantAppend(a[1..], b);
    }
  }

  lemma {:induction false} SignificantNone(s: string)
    requires forall i :: 0 <= i < |s| ==> !IsBlobChar(s[i]) || s[i] == '_'
    ensures Significant(s) == []
  {
    if s != [] {
      SignificantNone(s[1..]);
    }
  }

  /** Length of the leading run of characters outside `[a-zA-Z0-9_-]`. */
  function BadRun(s: string): (k: nat)
    ensures k <= |s|
    ensures forall i :: 0 <= i < k ==> !IsBlobChar(s[i])
    ensures k < |s| ==> IsBlobChar(s[k])
  {
    if s != [] && !IsBlobChar(s[0]) then 1 + BadRun(s[1..]) else 0
  }

  /** `re.sub(r"[^a-zA-Z0-9_-]+", "_", s)`: each run of other characters becomes one `_`. */
  function ReplaceBadRuns(s: string): (r: string)
    ensures forall i :: 0 <= i < |r| ==> IsBlobChar(r[i])
    ensures Significant(r) == Significant(s)
    decreases |s|
  {
    if s == [] then []
    else if IsBlobChar(s[0]) then
      var rest := ReplaceBadRuns(s[1..]);
      assert ([s[0]] + rest)[1..] == rest;
      [s[0]] + rest
    else
      var k := BadRun(s);
      var rest := ReplaceBadRuns(s[k..]);
      assert ("_" + rest)[1..] == rest;
      SignificantNone(s[..k]);
      SignificantAppend(s[..k], s[k..]);
      assert s[..k] + s[k..] == s;
      "_" + rest
  }

  /** Text already made of kept characters passes the substitution unchanged. */
  lemma {:induction false} ReplaceBadRunsIdentity(s: string)
    requires forall i :: 0 <= i < |s| ==> IsBlobChar(s[i])
    ensures ReplaceBadRuns(s) == s
  {
    if s != [] {
      ReplaceBadRunsIdentity(s[1..]);
      assert [s[0]] + s[1..] == s;
    }
  }

  predicate AllBlobChars(s: string)
  {
    forall i :: 0 <= i < |s| ==> IsBlobChar(s[i])
  }

  /** A run to replace: characters outside `[a-zA-Z0-9_-]` only, at least one of them. */
  predicate IsBadRun(s: string)
  {
    s != [] && forall i :: 0 <= i < |s| ==> !IsBlobChar(s[i])
  }

  /** `BadRun` stops at the first kept character. */
  lemma {:induction false} BadRunAt(s: string, j: nat)
    requires j <= |s|
    requires forall i :: 0 <= i < j ==> !IsBlobChar(s[i])
    requires j == |s| || IsBlobChar(s[j])
    ensures BadRun(s) == j
  {
    if j > 0 {
      forall i | 0 <= i < j - 1 ensures !IsBlobChar(s[1..][i]) {
        assert s[1..][i] == s[i + 1];
      }
      if j < |s| {
        assert s[1..][j - 1] == s[j];
      }
      BadRunAt(s[1..], j - 1);
    }
  }

  /** Kept characters, underscores and hyphens included, pass the substitution unchanged. */
  lemma {:induction false} ReplaceBadRunsKeeps(a: string, t: string)
    requires AllBlobChars(a)
    ensures ReplaceBadRuns(a + t) == a + ReplaceBadRuns(t)
  {
    if a == [] {
      assert a + t == t;
    } else {
      var at := a + t;
      assert at[0] == a[0];
      assert at[1..] == a[1..] + t;
      ReplaceBadRunsKeeps(a[1..], t);
      assert [a[0]] + (a[1..] + ReplaceBadRuns(t)) == a + ReplaceBadRuns(t);
    }
  }

  /** A whole run of other characters, up to the next kept one, becomes a single `_`. */
  lemma ReplaceBadRunsRun(run: string, t: string)
    requires IsBadRun(run)
    requires t == [] || IsBlobChar(t[0])
    ensures ReplaceBadRuns(run + t) == "_" + ReplaceBadRuns(t)
  {
    var s := run + t;
    forall i | 0 <= i < |run| ensures !IsBlobChar(s[i]) {
      assert s[i] == run[i];
    }
    if t != [] {
      assert s[|run|] == t[0];
    }
    BadRunAt(s, |run|);
    assert s[|run|..] == t;
  }

  /** Two kept words around a run of other characters are joined by exactly one `_`, in place. */
  lemma ReplaceBadRunsJoins(a: string, run: string, b: string)
    requires AllBlobChars(a) && IsBadRun(run) && AllBlobChars(b)
    ensures ReplaceBadRuns(a + run + b) == a + "_" + b
  {
    calc {
      ReplaceBadRuns(a + run + b);
      { assert a + run + b == a + (run + b); }
      ReplaceBadRuns(a + (run + b));
      { ReplaceBadRunsKeeps(a, run + b); }
      a + ReplaceBadRuns(run + b);
      { ReplaceBadRunsRun(run, b); ReplaceBadRunsIdentity(b); }
      a + ("_" + b);
    }
  }

  /** "My CV" gives the base "My_CV": words keep their case and are joined by one `_`. */
  lemma BlobBaseJoins(a: string, run: string, b: string)
    requires a != [] && b != [] && AllBlobChars(a) && AllBlobChars(b)
    requires a[0] != '_' && b[|b| - 1] != '_'
    requires IsBadRun(run)
    ensures BlobBase(a + run + b) == a + "_" + b
  {
    ReplaceBadRunsJoins(a, run, b);
    var s := a + "_" + b;
    assert s[0] == a[0] && s[|s| - 1] == b[|b| - 1];
    assert LStripChar(s, '_') == s;
    assert RStripChar(s, '_') == s;
  }

  /** `re.sub(...).strip("_") or "resume"`. */
  function BlobBase(name: string): string
  {
    var r := StripChar(ReplaceBadRuns(name), '_');
    if r == "" then "resume" else r
  }

  /** Dropping leading `_` keeps the significant characters. */
  lemma {:induction false} SignificantDropFront(s: string, i: nat)
    requires i <= |s|
    requires forall k :: 0 <= k < i ==> s[k] == '_'
    ensures Significant(s[i..]) == Significant(s)
  {
    if i > 0 {
      var t := s[1..];
      assert Significant(s) == Significant(t);
      forall k | 0 <= k < i - 1 ensures t[k] == '_' {
        assert t[k] == s[k + 1];
      }
      SignificantDropFront(t, i - 1);
      assert t[i - 1..] == s[i..];
    }
  }

  /** Dropping trailing `_` keeps the significant characters. */
  lemma SignificantDropBack(s: string, j: nat)
    requires j <= |s|
    requires forall k :: j <= k < |s| ==> s[k] == '_'
    ensures Significant(s[..j]) == Significant(s)
  {
    var tail := s[j..];
    forall k | 0 <= k < |tail| ensures tail[k] == '_' {
      assert tail[k] == s[j + k];
    }
    SignificantNone(tail);
    SignificantAppend(s[..j], tail);
    assert s[..j] + tail == s;
  }

  /** Stripping `_` from a string of kept characters keeps it kept and its significant characters. */
  lemma StripUnderscores(s: string)
    requires forall i :: 0 <= i < |s| ==> IsBlobChar(s[i])
    ensures var r := StripChar(s, '_');
      (forall i :: 0 <= i < |r| ==> IsBlobChar(r[i])) && Significant(r) == Significant(s)
  {
    var i, j := StripCharRange(s, '_');
    var r := s[i..j];
    forall k | 0 <= k < |r| ensures IsBlobChar(r[k]) {
      assert r[k] == s[i + k];
    }
    var front := s[..j];
    forall k | 0 <= k < i ensures front[k] == '_' {
      assert front[k] == s[k];
    }
    SignificantDropFront(front, i);
    assert front[i..] == r;
    SignificantDropBack(s, j);
  }

  /**
   * The base name is never empty, uses only `[a-zA-Z0-9_-]`, neither starts
   * nor ends with `_`, and keeps the letters, digits and hyphens of the name in
   * order and case; a name without any of those becomes "resume".
   */
  lemma BlobBaseSpec(name: string)
    ensures var r := BlobBase(name);
      && r != []
      && (forall i :: 0 <= i < |r| ==> IsBlobChar(r[i]))
      && r[0] != '_' && r[|r| - 1] != '_'
      && (Significant(name) == [] ==> r == "resume")
      && (Significant(name) != [] ==> Significant(r) == Significant(name))
  {
    var s := ReplaceBadRuns(name);
    StripUnderscores(s);
    if Significant(name) == [] {
      assert Significant(s) == [];
      forall i | 0 <= i < |s| ensures s[i] == '_' {
        SignificantAppend(s[..i], s[i..]);
        assert s[..i] + s[i..] == s;
        SignificantAppend([s[i]], s[i + 1..]);
        assert [s[i]] + s[i + 1..] == s[i..];
      }
      StripCharAll(s, '_');
    }
  }

  /** Sanitising a base name again changes nothing. */
  lemma BlobBaseIdempotent(name: string)
    ensures BlobBase(BlobBase(name)) == BlobBase(name)
  {
    var r := BlobBase(name);
    BlobBaseSpec(name);
    ReplaceBadRunsIdentity(r);
  }

  /** `f"{base}.pdf"`. */
  function BlobName(name: string): (b: string)
    ensures '?' !in b
  {
    BlobBaseSpec(name);
    BlobBase(name) + ".pdf"
  }

  // ---------------------------------------------------------------------------
  // generate_resume_pdf
  // ---------------------------------------------------------------------------

  datatype PdfError =
    | MissingApiKey         // NUTRIENT_API_KEY unset or empty
    | MissingContainerUrl   // AZURE_CONTAINER_SAS_URL unset or empty
    | RenderFailed          // the render service answered with an error status
    | NoSasQuery            // the stripped container URL has no `?`
    | UploadFailed          // the blob upload answered with an error status

  /** The HTTP requests the call sends, in order. */
  datatype Request =
    | Render(document: string, pageSize: string)
    | Upload(url: string)

  datatype Outcome = Outcome(requests: seq<Request>, result: Result<string, PdfError>)

  /** Python truthiness of an optional setting. */
  predicate IsSet(v: Option<string>)
  {
    v.Some? && v.value != ""
  }

  /**
   * `generate_resume_pdf`. `renderOk` and `uploadOk` say whether each HTTP call
   * succeeded. The container URL is required up front, so the branch that
   * writes to `output_path` is never taken.
   */
  function GenerateResumePdf(name: string, description: string, outputPath: string, pageSize: string,
                             apiKey: Option<string>, containerSasUrl: Option<string>,
                             renderOk: bool, uploadOk: bool): Outcome
  {
    if !IsSet(apiKey) then Outcome([], Failure(MissingApiKey))
    else if !IsSet(containerSasUrl) then Outcome([], Failure(MissingContainerUrl))
    else
      var render := [Render(HtmlDocument(name, description), pageSize)];
      if !renderOk then Outcome(render, Failure(RenderFailed))
      else match MetadataStore.SplitSas(Strip(containerSasUrl.value))
        case Failure(_) => Outcome(render, Failure(NoSasQuery))
        case Success(parts) =>
          var blobUrl := MetadataStore.BlobUrl(parts.0, parts.1, BlobName(name));
          if !uploadOk then Outcome(render + [Upload(blobUrl)], Failure(UploadFailed))
          else Outcome(render + [Upload(blobUrl)], Success(blobUrl))
  }

  /** The settings are checked first, the key before the container, and no request is sent without them. */
  lemma SettingsCheckedFirst(name: string, description: string, outputPath: string, pageSize: string,
                             apiKey: Option<string>, containerSasUrl: Option<string>,
                             renderOk: bool, uploadOk: bool)
    ensures var o := GenerateResumePdf(name, description, outputPath, pageSize, apiKey, containerSasUrl, renderOk, uploadOk);
      && (o.requests == [] <==> !IsSet(apiKey) || !IsSet(containerSasUrl))
      && (!IsSet(apiKey) ==> o.result == Failure(MissingApiKey))
      && (IsSet(apiKey) && !IsSet(containerSasUrl) ==> o.result == Failure(MissingContainerUrl))
      && (IsSet(apiKey) && IsSet(containerSasUrl) ==> o.requests[0] == Render(HtmlDocument(name, description), pageSize))
  {
  }

  /**
   * A call succeeds exactly when both settings are present, both requests
   * succeed and the stripped container URL has a `?`; it then returns the URL
   * it uploaded to, which is the container path, `/`, the blob name and the
   * container's SAS query.
   */
  lemma GenerateSuccess(name: string, description: string, outputPath: string, pageSize: string,
                        apiKey: Option<string>, containerSasUrl: Option<string>,
                        renderOk: bool, uploadOk: bool)
    ensures var o := GenerateResumePdf(name, description, outputPath, pageSize, apiKey, containerSasUrl, renderOk, uploadOk);
      && (o.result.Success? <==>
            IsSet(apiKey) && IsSet(containerSasUrl) && renderOk && uploadOk && '?' in Strip(containerSasUrl.value))
      && (o.result.Success? ==>
            var container := MetadataStore.SplitSas(Strip(containerSasUrl.value)).value;
            && o.requests == [Render(HtmlDocument(name, description), pageSize), Upload(o.result.value)]
            && MetadataStore.SplitSas(o.result.value)
               == Success((RStripChar(container.0, '/') + "/" + BlobBase(name) + ".pdf", container.1)))
  {
    var o := GenerateResumePdf(name, description, outputPath, pageSize, apiKey, containerSasUrl, renderOk, uploadOk);
    if o.result.Success? {
      var container := MetadataStore.SplitSas(Strip(containerSasUrl.value)).value;
      MetadataStore.BlobUrlSplit(container.0, container.1, BlobName(name));
      assert RStripChar(container.0, '/') + "/" + BlobName(name)
          == RStripChar(container.0, '/') + "/" + BlobBase(name) + ".pdf";
    }
  }

  /** `output_path` never matters: the local-file branch is unreachable. */
  lemma OutputPathUnused(name: string, description: string, outputPath: string, outputPath': string,
                         pageSize: string, apiKey: Option<string>, containerSasUrl: Option<string>,
                         renderOk: bool, uploadOk: bool)
    ensures GenerateResumePdf(name, description, outputPath, pageSize, apiKey, containerSasUrl, renderOk, uploadOk)
         == GenerateResumePdf(name, description, outputPath', pageSize, apiKey, containerSasUrl, renderOk, uploadOk)
  {
  }
}
