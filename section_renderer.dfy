/**
 * `render_section(title, content)` from services/metadata_service.py.
 *
 * The Python function appends f-strings to a list `html` and returns
 * `"".join(html)`. Here each f-string is kept as its segments: `Markup` for a
 * literal piece of markup written in the source, `Escaped` for a value
 * interpolated through `html.escape`. `Emit` is the final join, and it is the
 * one place where `Escaped` text goes through `Escape`.
 *
 * `SectionPieces` and its helpers state what the list holds once the function
 * returns; the method `RenderSection` builds it with the loops of the source
 * and is proved to produce exactly that.
 */
module SectionRenderer {
  import opened Wrappers
  import opened Text
  import opened HtmlEscape
  import opened Json

  datatype Piece = Markup(tag: string) | Escaped(raw: string)

  function PieceOut(p: Piece): string
  {
    match p
    case Markup(tag) => tag
    case Escaped(raw) => Escape(raw)
  }

  /** `"".join(html)`. */
  function Emit(ps: seq<Piece>): string
  {
    if ps == [] then "" else PieceOut(ps[0]) + Emit(ps[1..])
  }

  lemma {:induction false} EmitAppend(a: seq<Piece>, b: seq<Piece>)
    ensures Emit(a + b) == Emit(a) + Emit(b)
  {
    if a == [] {
      assert a + b == b;
    } else {
      assert (a + b)[0] == a[0];
      assert (a + b)[1..] == a[1..] + b;
      EmitAppend(a[1..], b);
    }
  }

  // ---------------------------------------------------------------------------
  // The fixed vocabulary of the source
  // ---------------------------------------------------------------------------

  const SectionOpen := "<div class=\"section\"><h2>"
  const ItemOpen := "<div class=\"item\">"
  const MetaOpen := "<p class=\"meta\">"

  /** Every literal piece of markup that `render_section` writes. */
  const FixedMarkup: set<string> := {
    SectionOpen, "</h2>", "</div>", "<p>", "</p>", "<dl>", "</dl>", "<dt>",
    "</dt><dd>", "</dd>", "</dt><dd><pre>", "</pre></dd>", "<ul>", "</ul>",
    "<li>", "</li>", ItemOpen, "<h3>", "</h3>", MetaOpen
  }

  const TitleKeys := ["role", "title", "position"]
  const OrgKeys := ["company", "organization", "institution"]
  const MetaKeys := ["period", "dates", "duration", "location"]
  const BulletKeys := ["bullets", "highlights", "responsibilities"]

  /** The keys an entry's heading, meta line and bullet lists consume. */
  const Reserved: set<string> := {
    "role", "title", "position", "company", "organization", "institution",
    "period", "dates", "duration", "location", "bullets", "highlights",
    "responsibilities"
  }

  const HeadingSep := " \U{2014} "
  const MetaSep := " \U{B7} "

  /** Every `Markup` piece is one of the source's literals. */
  predicate WellTagged(ps: seq<Piece>)
  {
    forall p | p in ps :: p.Markup? ==> p.tag in FixedMarkup
  }

  // ---------------------------------------------------------------------------
  // What the `html` list holds
  // ---------------------------------------------------------------------------

  /** The whole list: empty for `None`, otherwise the section shell around the body. */
  function SectionPieces(title: string, content: Value): (r: seq<Piece>)
  {
    if content.Null? then []
    else Opening(title) + BodyPieces(content) + [Markup("</div>")]
  }

  function Opening(title: string): (r: seq<Piece>)
  {
    [Markup(SectionOpen), Escaped(title), Markup("</h2>")]
  }

  /** What follows the heading, by the shape of `content`. */
  function BodyPieces(content: Value): (r: seq<Piece>)
  {
    match content
    case Str(s) => ParagraphPieces(Strip(s))
    case Obj(fields) =>
      if fields == [] then [] else [Markup("<dl>")] + DictRows(fields) + [Markup("</dl>")]
    case Arr(items) =>
      if items == [] then []
      else if AllObjects(items) then EntryBlocks(items)
      else [Markup("<ul>")] + ListItems(items) + [Markup("</ul>")]
    case _ => []
  }

  function ParagraphPieces(text: string): (r: seq<Piece>)
  {
    if text != "" then [Markup("<p>"), Escaped(text), Markup("</p>")] else []
  }

  /** One `<dt>`/`<dd>` pair of a dict section: strings verbatim, other values as JSON in `<pre>`. */
  function DictRow(key: string, v: Value): (r: seq<Piece>)
    ensures |r| == 5
  {
    if v.Str? then [Markup("<dt>"), Escaped(key), Markup("</dt><dd>"), Escaped(v.s), Markup("</dd>")]
    else [Markup("<dt>"), Escaped(key), Markup("</dt><dd><pre>"), Escaped(Dumps(v)), Markup("</pre></dd>")]
  }

  function DictRows(fields: seq<(string, Value)>): (r: seq<Piece>)
    ensures |r| == 5 * |fields|
  {
    if fields == [] then []
    else DictRows(fields[..|fields| - 1]) + DictRow(fields[|fields| - 1].0, fields[|fields| - 1].1)
  }

  function ListItem(v: Value): (r: seq<Piece>)
  {
    [Markup("<li>"), Escaped(PyStr(v)), Markup("</li>")]
  }

  function ListItems(items: seq<Value>): (r: seq<Piece>)
    ensures |r| == 3 * |items|
  {
    if items == [] then [] else ListItems(items[..|items| - 1]) + ListItem(items[|items| - 1])
  }

  /** `all(isinstance(item, dict) for item in content)`. */
  predicate AllObjects(items: seq<Value>)
  {
    forall i :: 0 <= i < |items| ==> items[i].Obj?
  }

  function EntryBlocks(items: seq<Value>): (r: seq<Piece>)
    requires AllObjects(items)
  {
    if items == [] then []
    else EntryBlocks(items[..|items| - 1]) + EntryPieces(items[|items| - 1].fields)
  }

  /** One structured entry: heading, meta line, bullet lists, remaining fields. */
  function EntryPieces(item: seq<(string, Value)>): (r: seq<Piece>)
  {
    [Markup(ItemOpen)] + HeadingPieces(item) + MetaPieces(item)
      + BulletLists(item, BulletKeys) + RemainingPieces(item) + [Markup("</div>")]
  }

  /** `str()` of the value of the first key of `keys` whose value is truthy, if any. */
  function FirstTruthy(item: seq<(string, Value)>, keys: seq<string>): seq<string>
  {
    if keys == [] then []
    else if HasTruthy(item, keys[0]) then [PyStr(Get(item, keys[0]))]
    else FirstTruthy(item, keys[1..])
  }

  function HeadingParts(item: seq<(string, Value)>): seq<string>
  {
    FirstTruthy(item, TitleKeys) + FirstTruthy(item, OrgKeys)
  }

  function HeadingPieces(item: seq<(string, Value)>): (r: seq<Piece>)
  {
    var heading := HeadingParts(item);
    if heading == [] then [] else [Markup("<h3>"), Escaped(Join(HeadingSep, heading)), Markup("</h3>")]
  }

  /** `str()` of the value of every key of `keys` whose value is truthy, in key order. */
  function TruthyValues(item: seq<(string, Value)>, keys: seq<string>): seq<string>
  {
    if keys == [] then []
    else
      var key := keys[|keys| - 1];
      TruthyValues(item, keys[..|keys| - 1])
        + (if HasTruthy(item, key) then [PyStr(Get(item, key))] else [])
  }

  function MetaPieces(item: seq<(string, Value)>): (r: seq<Piece>)
  {
    var sub := TruthyValues(item, MetaKeys);
    if sub == [] then [] else [Markup(MetaOpen), Escaped(Join(MetaSep, sub)), Markup("</p>")]
  }

  /** The value at `key` when it is a non-empty list. */
  function BulletItems(item: seq<(string, Value)>, key: string): Option<seq<Value>>
  {
    match Lookup(item, key)
    case Some(Arr(xs)) => if xs != [] then Some(xs) else None
    case _ => None
  }

  function BulletList(item: seq<(string, Value)>, key: string): (r: seq<Piece>)
  {
    match BulletItems(item, key)
    case Some(xs) => [Markup("<ul>")] + ListItems(xs) + [Markup("</ul>")]
    case None => []
  }

  function BulletLists(item: seq<(string, Value)>, keys: seq<string>): (r: seq<Piece>)
  {
    if keys == [] then []
    else BulletLists(item, keys[..|keys| - 1]) + BulletList(item, keys[|keys| - 1])
  }

  /** The dict comprehension over the keys outside `Reserved`, in their original order. */
  function Remaining(item: seq<(string, Value)>): seq<(string, Value)>
  {
    if item == [] then []
    else
      var p := item[|item| - 1];
      Remaining(item[..|item| - 1]) + (if p.0 in Reserved then [] else [p])
  }

  function PlainRow(key: string, v: Value): (r: seq<Piece>)
  {
    [Markup("<dt>"), Escaped(key), Markup("</dt><dd>"), Escaped(PyStr(v)), Markup("</dd>")]
  }

  function PlainRows(fields: seq<(string, Value)>): (r: seq<Piece>)
  {
    if fields == [] then []
    else PlainRows(fields[..|fields| - 1]) + PlainRow(fields[|fields| - 1].0, fields[|fields| - 1].1)
  }

  function RemainingPieces(item: seq<(string, Value)>): (r: seq<Piece>)
  {
    var rest := Remaining(item);
    if rest == [] then [] else [Markup("<dl>")] + PlainRows(rest) + [Markup("</dl>")]
  }

  /** The string `render_section(title, content)` returns. */
  function Render(title: string, content: Value): string
  {
    Emit(SectionPieces(title, content))
  }

  // ---------------------------------------------------------------------------
  // The imperative renderer
  // ---------------------------------------------------------------------------

  method RenderSection(title: string, content: Value) returns (out: string)
    ensures out == Render(title, content)
  {
    if content.Null? {
      return "";
    }
    var html := [Markup(SectionOpen), Escaped(title), Markup("</h2>")];
    html := AppendBody(html, content);
    html := html + [Markup("</div>")];
    out := Emit(html);
  }

  /** The `isinstance` dispatch on the shape of `content`. */
  method AppendBody(html: seq<Piece>, content: Value) returns (html': seq<Piece>)
    ensures html' == html + BodyPieces(content)
  {
    html' := html;
    match content {
      case Str(s) =>
        var text := Strip(s);
        if text != "" {
          html' := html' + [Markup("<p>"), Escaped(text), Markup("</p>")];
        }
      case Obj(fields) =>
        if fields != [] {
          html' := html' + [Markup("<dl>")];
          html' := AppendDictRows(html', fields);
          html' := html' + [Markup("</dl>")];
        }
      case Arr(items) =>
        if items != [] {
          if AllObjects(items) {
            html' := AppendEntries(html', items);
          } else {
            html' := html' + [Markup("<ul>")];
            html' := AppendListItems(html', items);
            html' := html' + [Markup("</ul>")];
          }
        }
      case _ =>
    }
  }

  method AppendDictRows(html: seq<Piece>, fields: seq<(string, Value)>) returns (html': seq<Piece>)
    ensures html' == html + DictRows(fields)
  {
    html' := html;
    for i := 0 to |fields|
      invariant html' == html + DictRows(fields[..i])
    {
      var (k, v) := fields[i];
      if v.Str? {
        html' := html' + [Markup("<dt>"), Escaped(k), Markup("</dt><dd>"), Escaped(v.s), Markup("</dd>")];
      } else {
        html' := html' + [Markup("<dt>"), Escaped(k), Markup("</dt><dd><pre>"), Escaped(Dumps(v)), Markup("</pre></dd>")];
      }
      assert fields[..i + 1][..i] == fields[..i];
    }
    assert fields[..|fields|] == fields;
  }

  method AppendListItems(html: seq<Piece>, items: seq<Value>) returns (html': seq<Piece>)
    ensures html' == html + ListItems(items)
  {
    html' := html;
    for i := 0 to |items|
      invariant html' == html + ListItems(items[..i])
    {
      html' := html' + [Markup("<li>"), Escaped(PyStr(items[i])), Markup("</li>")];
      assert items[..i + 1][..i] == items[..i];
    }
    assert items[..|items|] == items;
  }

  method AppendEntries(html: seq<Piece>, items: seq<Value>) returns (html': seq<Piece>)
    requires AllObjects(items)
    ensures html' == html + EntryBlocks(items)
  {
    html' := html;
    for i := 0 to |items|
      invariant AllObjects(items[..i])
      invariant html' == html + EntryBlocks(items[..i])
    {
      EntryBlocksSnoc(items, i);
      var block := EntryBlock(items[i].fields);
      AppendAssoc(html, EntryBlocks(items[..i]), block);
      html' := html' + block;
    }
    assert items[..|items|] == items;
  }

  lemma EntryBlocksSnoc(items: seq<Value>, i: nat)
    requires AllObjects(items) && i < |items|
    ensures AllObjects(items[..i]) && AllObjects(items[..i + 1])
    ensures EntryBlocks(items[..i + 1]) == EntryBlocks(items[..i]) + EntryPieces(items[i].fields)
  {
    assert items[..i + 1][..i] == items[..i];
  }

  lemma AppendAssoc(a: seq<Piece>, b: seq<Piece>, c: seq<Piece>)
    ensures a + b + c == a + (b + c)
  {
  }

  /** The pieces the body of the `for item in content` loop appends for one structured entry. */
  method EntryBlock(item: seq<(string, Value)>) returns (block: seq<Piece>)
    ensures block == EntryPieces(item)
  {
    block := [Markup(ItemOpen)];
    block := AppendHeadingAndMeta(block, item);
    block := AppendBulletLists(block, item);
    block := AppendRemaining(block, item);
    block := block + [Markup("</div>")];
  }

  /** The heading and meta lines of one entry. */
  method AppendHeadingAndMeta(html: seq<Piece>, item: seq<(string, Value)>) returns (html': seq<Piece>)
    ensures html' == html + HeadingPieces(item) + MetaPieces(item)
  {
    var heading: seq<string> := [];
    heading := AppendFirstTruthy(heading, item, TitleKeys);
    heading := AppendFirstTruthy(heading, item, OrgKeys);
    assert heading == HeadingParts(item);
    var sub := CollectTruthy(item, MetaKeys);
    html' := html;
    if heading != [] {
      html' := html' + [Markup("<h3>"), Escaped(Join(HeadingSep, heading)), Markup("</h3>")];
    }
    if sub != [] {
      html' := html' + [Markup(MetaOpen), Escaped(Join(MetaSep, sub)), Markup("</p>")];
    }
  }

  /** The trailing `<dl>` of the fields no other part of the entry consumed. */
  method AppendRemaining(html: seq<Piece>, item: seq<(string, Value)>) returns (html': seq<Piece>)
    ensures html' == html + RemainingPieces(item)
  {
    var rest := Remaining(item);
    html' := html;
    if rest != [] {
      html' := html' + [Markup("<dl>")];
      html' := AppendPlainRows(html', rest);
      html' := html' + [Markup("</dl>")];
    }
  }

  /** `for key in keys: if key in item and item[key]: heading.append(str(item[key])); break`. */
  method AppendFirstTruthy(heading: seq<string>, item: seq<(string, Value)>, keys: seq<string>)
    returns (heading': seq<string>)
    ensures heading' == heading + FirstTruthy(item, keys)
  {
    heading' := heading;
    var j := 0;
    while j < |keys|
      invariant 0 <= j <= |keys|
      invariant FirstTruthy(item, keys) == FirstTruthy(item, keys[j..])
      invariant heading' == heading
    {
      if HasTruthy(item, keys[j]) {
        heading' := heading' + [PyStr(Get(item, keys[j]))];
        break;
      }
      assert keys[j..][1..] == keys[j + 1..];
      j := j + 1;
    }
  }

  /** `for key in keys: if key in item and item[key]: sub.append(str(item[key]))`. */
  method CollectTruthy(item: seq<(string, Value)>, keys: seq<string>) returns (sub: seq<string>)
    ensures sub == TruthyValues(item, keys)
  {
    sub := [];
    for j := 0 to |keys|
      invariant sub == TruthyValues(item, keys[..j])
    {
      if HasTruthy(item, keys[j]) {
        sub := sub + [PyStr(Get(item, keys[j]))];
      }
      assert keys[..j + 1][..j] == keys[..j];
    }
    assert keys[..|keys|] == keys;
  }

  /** The `for key in ("bullets", "highlights", "responsibilities")` loop. */
  method AppendBulletLists(html: seq<Piece>, item: seq<(string, Value)>) returns (html': seq<Piece>)
    ensures html' == html + BulletLists(item, BulletKeys)
  {
    html' := html;
    for j := 0 to |BulletKeys|
      invariant html' == html + BulletLists(item, BulletKeys[..j])
    {
      assert BulletKeys[..j + 1][..j] == BulletKeys[..j];
      assert BulletLists(item, BulletKeys[..j + 1])
          == BulletLists(item, BulletKeys[..j]) + BulletList(item, BulletKeys[j]);
      var block := AppendBulletList([], item, BulletKeys[j]);
      assert block == BulletList(item, BulletKeys[j]);
      AppendAssoc(html, BulletLists(item, BulletKeys[..j]), block);
      html' := html' + block;
    }
    assert BulletKeys[..|BulletKeys|] == BulletKeys;
  }

  /** One bullet key: a `<ul>` of its items when it holds a non-empty list. */
  method AppendBulletList(html: seq<Piece>, item: seq<(string, Value)>, key: string) returns (html': seq<Piece>)
    ensures html' == html + BulletList(item, key)
  {
    html' := html;
    var v := Lookup(item, key);
    if v.Some? && v.value.Arr? && v.value.items != [] {
      html' := html' + [Markup("<ul>")];
      html' := AppendListItems(html', v.value.items);
      html' := html' + [Markup("</ul>")];
    }
  }

  method AppendPlainRows(html: seq<Piece>, fields: seq<(string, Value)>) returns (html': seq<Piece>)
    ensures html' == html + PlainRows(fields)
  {
    html' := html;
    for i := 0 to |fields|
      invariant html' == html + PlainRows(fields[..i])
    {
      html' := html' + [Markup("<dt>"), Escaped(fields[i].0), Markup("</dt><dd>"), Escaped(PyStr(fields[i].1)), Markup("</dd>")];
      assert fields[..i + 1][..i] == fields[..i];
    }
    assert fields[..|fields|] == fields;
  }

  // ---------------------------------------------------------------------------
  // Properties of the rendered section
  // ---------------------------------------------------------------------------

  /**
   * `None` renders as nothing; anything else as the section shell: the
   * escaped title in an `<h2>`, the body, and the closing `</div>`.
   */
  lemma RenderShell(title: string, content: Value)
    ensures Render(title, content) == "" <==> content.Null?
    ensures !content.Null? ==>
      Render(title, content) == SectionOpen + Escape(title) + "</h2>" + Emit(BodyPieces(content)) + "</div>"
  {
    if !content.Null? {
      var body := BodyPieces(content);
      EmitAppend(Opening(title) + body, [Markup("</div>")]);
      EmitAppend(Opening(title), body);
      EmitThree(Markup(SectionOpen), Escaped(title), Markup("</h2>"));
      assert Emit([Markup("</div>")]) == "</div>";
    }
  }

  lemma EmitThree(a: Piece, b: Piece, c: Piece)
    ensures Emit([a, b, c]) == PieceOut(a) + PieceOut(b) + PieceOut(c)
  {
    assert [a, b, c][1..] == [b, c];
    assert [b, c][1..] == [c];
    assert Emit([c]) == PieceOut(c) + Emit([]);
    assert Emit([b, c]) == PieceOut(b) + Emit([c]);
  }

  /** A string section is a paragraph of the stripped, escaped text, or nothing when it is blank. */
  lemma RenderText(title: string, s: string)
    ensures Render(title, Str(s)) ==
      SectionOpen + Escape(title) + "</h2>"
      + (if Strip(s) != "" then "<p>" + Escape(Strip(s)) + "</p>" else "")
      + "</div>"
  {
    RenderShell(title, Str(s));
    if Strip(s) != "" {
      EmitThree(Markup("<p>"), Escaped(Strip(s)), Markup("</p>"));
    }
  }

  /**
   * Row `i` of a dict section holds the `i`-th key and its value, in the dict's
   * order: a string as itself, anything else as its JSON text inside `<pre>`.
   */
  lemma {:induction false} DictRowsInOrder(fields: seq<(string, Value)>, i: nat)
    requires i < |fields|
    ensures DictRows(fields)[5 * i] == Markup("<dt>")
    ensures DictRows(fields)[5 * i + 1] == Escaped(fields[i].0)
    ensures fields[i].1.Str? ==>
      && DictRows(fields)[5 * i + 2] == Markup("</dt><dd>")
      && DictRows(fields)[5 * i + 3] == Escaped(fields[i].1.s)
      && DictRows(fields)[5 * i + 4] == Markup("</dd>")
    ensures !fields[i].1.Str? ==>
      && DictRows(fields)[5 * i + 2] == Markup("</dt><dd><pre>")
      && DictRows(fields)[5 * i + 3] == Escaped(Dumps(fields[i].1))
      && DictRows(fields)[5 * i + 4] == Markup("</pre></dd>")
  {
    var n := |fields| - 1;
    if i < n {
      DictRowsInOrder(fields[..n], i);
      assert fields[..n][i] == fields[i];
    }
  }

  /** Item `i` of a plain list is `str()` of the `i`-th element, in order. */
  lemma {:induction false} ListItemsInOrder(items: seq<Value>, i: nat)
    requires i < |items|
    ensures ListItems(items)[3 * i] == Markup("<li>")
    ensures ListItems(items)[3 * i + 1] == Escaped(PyStr(items[i]))
    ensures ListItems(items)[3 * i + 2] == Markup("</li>")
  {
    var n := |items| - 1;
    if i < n {
      ListItemsInOrder(items[..n], i);
      assert items[..n][i] == items[i];
    }
  }

  /**
   * The heading loops take the first key whose value is truthy and stop there:
   * nothing when no key qualifies, and otherwise exactly that key's value.
   */
  lemma {:induction false} FirstTruthyPicksFirst(item: seq<(string, Value)>, keys: seq<string>, k: nat)
    requires k < |keys| && HasTruthy(item, keys[k])
    requires forall j :: 0 <= j < k ==> !HasTruthy(item, keys[j])
    ensures FirstTruthy(item, keys) == [PyStr(Get(item, keys[k]))]
  {
    if k > 0 {
      FirstTruthyPicksFirst(item, keys[1..], k - 1);
    }
  }

  lemma {:induction false} FirstTruthyNone(item: seq<(string, Value)>, keys: seq<string>)
    ensures FirstTruthy(item, keys) == [] <==> forall j :: 0 <= j < |keys| ==> !HasTruthy(item, keys[j])
  {
    if keys != [] {
      FirstTruthyNone(item, keys[1..]);
      assert forall j :: 1 <= j < |keys| ==> keys[1..][j - 1] == keys[j];
    }
  }

  /** A truthy "role" always heads the entry, whatever "title" or "position" hold. */
  lemma RoleWins(item: seq<(string, Value)>)
    requires HasTruthy(item, "role")
    ensures HeadingParts(item)[0] == PyStr(Get(item, "role"))
  {
    FirstTruthyPicksFirst(item, TitleKeys, 0);
  }

  /**
   * The meta line lists the value of every truthy key among `keys`, and
   * nothing else; it is empty exactly when no key is truthy.
   */
  lemma {:induction false} TruthyValuesSpec(item: seq<(string, Value)>, keys: seq<string>)
    ensures |TruthyValues(item, keys)| <= |keys|
    ensures TruthyValues(item, keys) == [] <==> forall j :: 0 <= j < |keys| ==> !HasTruthy(item, keys[j])
    ensures forall v :: v in TruthyValues(item, keys) <==>
      exists j :: 0 <= j < |keys| && HasTruthy(item, keys[j]) && v == PyStr(Get(item, keys[j]))
  {
    if keys != [] {
      var n := |keys| - 1;
      TruthyValuesSpec(item, keys[..n]);
      assert forall j :: 0 <= j < n ==> keys[..n][j] == keys[j];
    }
  }

  /** The meta values of `a + b` are those of `a` followed by those of `b`. */
  lemma {:induction false} TruthyValuesAppend(item: seq<(string, Value)>, a: seq<string>, b: seq<string>)
    ensures TruthyValues(item, a + b) == TruthyValues(item, a) + TruthyValues(item, b)
  {
    if b == [] {
      assert a + b == a;
    } else {
      var n := |b| - 1;
      var ab := a + b;
      assert ab[..|ab| - 1] == a + b[..n];
      assert ab[|ab| - 1] == b[n];
      TruthyValuesAppend(item, a, b[..n]);
    }
  }

  /** One key contributes its value exactly when it is truthy. */
  lemma TruthyValuesOne(item: seq<(string, Value)>, k: string)
    ensures TruthyValues(item, [k]) == if HasTruthy(item, k) then [PyStr(Get(item, k))] else []
  {
    assert [k][..0] == [];
  }

  /** With only "location" among the meta keys present, the meta line is just the location. */
  lemma OnlyLocation(item: seq<(string, Value)>)
    requires HasTruthy(item, "location")
    requires !HasTruthy(item, "period") && !HasTruthy(item, "dates") && !HasTruthy(item, "duration")
    ensures MetaPieces(item) == [Markup(MetaOpen), Escaped(PyStr(Get(item, "location"))), Markup("</p>")]
  {
    var head := MetaKeys[..3];
    assert head == ["period", "dates", "duration"];
    TruthyValuesSpec(item, head);
    assert TruthyValues(item, head) == [];
    assert TruthyValues(item, MetaKeys) == TruthyValues(item, head) + [PyStr(Get(item, "location"))];
  }

  /** No `<ul>` is written for an entry unless one of `keys` holds a non-empty list. */
  lemma {:induction false} BulletListsEmpty(item: seq<(string, Value)>, keys: seq<string>)
    ensures BulletLists(item, keys) == [] <==> forall j :: 0 <= j < |keys| ==> BulletItems(item, keys[j]).None?
  {
    if keys != [] {
      var n := |keys| - 1;
      BulletListsEmpty(item, keys[..n]);
      assert forall j :: 0 <= j < n ==> keys[..n][j] == keys[j];
    }
  }

  /** The remaining fields are exactly the pairs whose key is not reserved. */
  lemma {:induction false} RemainingSpec(item: seq<(string, Value)>)
    ensures forall p :: p in Remaining(item) <==> p in item && p.0 !in Reserved
  {
    if item != [] {
      var n := |item| - 1;
      RemainingSpec(item[..n]);
      assert item == item[..n] + [item[n]];
    }
  }

  /** ... and they keep the dict's order: filtering distributes over concatenation. */
  lemma {:induction false} RemainingAppend(a: seq<(string, Value)>, b: seq<(string, Value)>)
    ensures Remaining(a + b) == Remaining(a) + Remaining(b)
  {
    if b == [] {
      assert a + b == a;
    } else {
      var n := |b| - 1;
      assert (a + b)[..|a + b| - 1] == a + b[..n];
      RemainingAppend(a, b[..n]);
    }
  }

  /** The `Markup` pieces of `ps`, in order. */
  function MarkupOnly(ps: seq<Piece>): (r: seq<Piece>)
    ensures forall p :: p in r <==> p in ps && p.Markup?
  {
    if ps == [] then []
    else if ps[0].Markup? then [ps[0]] + MarkupOnly(ps[1..])
    else MarkupOnly(ps[1..])
  }

  /** Filtering the markup distributes over concatenation, so the markup keeps its order. */
  lemma {:induction false} MarkupOnlyAppend(a: seq<Piece>, b: seq<Piece>)
    ensures MarkupOnly(a + b) == MarkupOnly(a) + MarkupOnly(b)
  {
    if a == [] {
      assert a + b == b;
    } else {
      assert (a + b)[0] == a[0];
      assert (a + b)[1..] == a[1..] + b;
      MarkupOnlyAppend(a[1..], b);
    }
  }

  /**
   * Escaping makes user text inert: every angle bracket and quote in the
   * output comes from a literal piece of markup, never from a title, key or value.
   */
  lemma {:induction false} OnlyMarkupBrackets(ps: seq<Piece>, c: char)
    requires c == '<' || c == '>' || c == '"' || c == '\''
    ensures Count(c, Emit(ps)) == Count(c, Emit(MarkupOnly(ps)))
  {
    if ps != [] {
      OnlyMarkupBrackets(ps[1..], c);
      CountAppend(c, PieceOut(ps[0]), Emit(ps[1..]));
      if ps[0].Markup? {
        assert ([ps[0]] + MarkupOnly(ps[1..]))[1..] == MarkupOnly(ps[1..]);
        CountAppend(c, ps[0].tag, Emit(MarkupOnly(ps[1..])));
      }
    }
  }

  /** Every tag `render_section` writes is one of its fixed literals. */
  lemma SectionTagged(title: string, content: Value)
    ensures WellTagged(SectionPieces(title, content))
  {
    if !content.Null? {
      BodyTagged(content);
    }
  }

  lemma BodyTagged(content: Value)
    ensures WellTagged(BodyPieces(content))
  {
    match content
    case Obj(fields) => DictRowsTagged(fields);
    case Arr(items) =>
      if AllObjects(items) {
        EntryBlocksTagged(items);
      }
      ListItemsTagged(items);
    case _ =>
  }

  lemma {:induction false} DictRowsTagged(fields: seq<(string, Value)>)
    ensures WellTagged(DictRows(fields))
  {
    if fields != [] {
      DictRowsTagged(fields[..|fields| - 1]);
    }
  }

  lemma {:induction false} ListItemsTagged(items: seq<Value>)
    ensures WellTagged(ListItems(items))
  {
    if items != [] {
      ListItemsTagged(items[..|items| - 1]);
    }
  }

  lemma {:induction false} PlainRowsTagged(fields: seq<(string, Value)>)
    ensures WellTagged(PlainRows(fields))
  {
    if fields != [] {
      PlainRowsTagged(fields[..|fields| - 1]);
    }
  }

  lemma {:induction false} BulletListsTagged(item: seq<(string, Value)>, keys: seq<string>)
    ensures WellTagged(BulletLists(item, keys))
  {
    if keys != [] {
      BulletListsTagged(item, keys[..|keys| - 1]);
      var b := BulletItems(item, keys[|keys| - 1]);
      if b.Some? {
        ListItemsTagged(b.value);
      }
    }
  }

  lemma TaggedAppend(a: seq<Piece>, b: seq<Piece>)
    requires WellTagged(a) && WellTagged(b)
    ensures WellTagged(a + b)
  {
  }

  lemma HeadingMetaTagged(item: seq<(string, Value)>)
    ensures WellTagged([Markup(ItemOpen)] + HeadingPieces(item) + MetaPieces(item))
  {
  }

  lemma RemainingTagged(item: seq<(string, Value)>)
    ensures WellTagged(RemainingPieces(item))
  {
    PlainRowsTagged(Remaining(item));
  }

  lemma EntryPiecesTagged(item: seq<(string, Value)>)
    ensures WellTagged(EntryPieces(item))
  {
    var head := [Markup(ItemOpen)] + HeadingPieces(item) + MetaPieces(item);
    var bullets := BulletLists(item, BulletKeys);
    var rest := RemainingPieces(item);
    HeadingMetaTagged(item);
    BulletListsTagged(item, BulletKeys);
    RemainingTagged(item);
    TaggedAppend(head, bullets);
    TaggedAppend(head + bullets, rest);
    TaggedAppend(head + bullets + rest, [Markup("</div>")]);
    assert EntryPieces(item) == head + bullets + rest + [Markup("</div>")];
  }

  lemma {:induction false} EntryBlocksTagged(items: seq<Value>)
    requires AllObjects(items)
    ensures WellTagged(EntryBlocks(items))
  {
    if items != [] {
      EntryBlocksTagged(items[..|items| - 1]);
      EntryPiecesTagged(items[|items| - 1].fields);
      TaggedAppend(EntryBlocks(items[..|items| - 1]), EntryPieces(items[|items| - 1].fields));
    }
  }
}
