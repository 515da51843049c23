/**
 * DocumentParser: turns an uploaded Word or PDF file into markdown and then into the cleaned
 * content and publication date of a policy document. The converters (pandoc, pdftoppm), the page
 * files, the OpenAI vision and chat requests, JSON.parse and Date.parse are not modelled; what they
 * return is an input (`Tools`). What the parser does with their answers is modelled exactly.
 */
module DocumentParser {
  import opened Wrappers
  import opened Strings
  import opened Models
  import opened ReasoningService
  import BaseScanner

  // =============================================================================================
  // strip_markdown_fence

  const Opening: string := "```markdown"
  const Fence: string := "```"

  /** `gsub(/\A```markdown\s*\n?/, "")`: an opening fence at the very start, with the white space after it. */
  function RemoveOpening(s: string): string {
    if |Opening| <= |s| && s[..|Opening|] == Opening then s[SkipForward(s, IsRegexpSpace, |Opening|)..]
    else s
  }

  /**
   * `gsub(/\n?```\s*\z/, "")`: a closing fence followed only by white space, with the newline just
   * before it. The fence can only end where the trailing white space of `s` starts, at `n`; the
   * leftmost match takes the newline when there is one.
   */
  function RemoveClosing(s: string): string {
    var n := SkipBackward(s, IsRegexpSpace, |s|);
    if 3 <= n && s[n - 3..n] == Fence then (if 4 <= n && s[n - 4] == '\n' then s[..n - 4] else s[..n - 3])
    else s
  }

  /**
   * strip_markdown_fence(content): nil for blank content; otherwise the content without its
   * markdown fences, stripped.
   */
  function StripMarkdownFence(content: Option<string>): (r: Option<string>)
    ensures r.None? <==> Blank(content)
    ensures r.Some? ==> r.value == [] || (!IsStripSpace(r.value[0]) && !IsStripSpace(r.value[|r.value| - 1]))
  {
    if Blank(content) then None else Some(Strip(RemoveClosing(RemoveOpening(content.value))))
  }

  /** Skipping from `i` ends at `j` when everything in between is of the class and `s[j]` is not. */
  lemma {:induction false} SkipForwardTo(s: string, space: char -> bool, i: nat, j: nat)
    requires i <= j <= |s| && (j == |s| || !space(s[j]))
    requires forall k :: i <= k < j ==> space(s[k])
    ensures SkipForward(s, space, i) == j
    decreases j - i
  {
    if i < j {
      SkipForwardTo(s, space, i + 1, j);
    }
  }

  /** Stripping after removing leading ASCII white space is stripping. */
  lemma StripAfterSkip(s: string, m: nat)
    requires m <= |s| && forall k :: 0 <= k < m ==> IsRegexpSpace(s[k])
    ensures Strip(s[m..]) == Strip(s)
  {
    var t := s[m..];
    var q := SkipForward(s, IsStripSpace, 0);
    SkipForwardTo(t, IsStripSpace, 0, q - m);
    assert t[q - m..] == s[q..];
  }

  /**
   * A body wrapped in a markdown fence comes back stripped: the fence and the white space next to
   * it are removed and nothing else is.
   */
  lemma FencedRoundTrip(body: string)
    ensures StripMarkdownFence(Some(Opening + "\n" + body + "\n" + Fence)) == Some(Strip(body))
  {
    var s := Opening + "\n" + body + "\n" + Fence;
    var m := OpeningRemoved(body);
    if m < |body| {
      ClosingRemoved(body[m..]);
    } else {
      assert RemoveClosing(Fence) == [];
      SkipForwardTo(body, IsStripSpace, 0, |body|);
    }
    StripAfterSkip(body, m);
    OpenedIsNotBlank(s);
  }

  /** Text that starts with the opening fence is not blank. */
  lemma OpenedIsNotBlank(s: string)
    requires |Opening| <= |s| && s[..|Opening|] == Opening
    ensures !Blank(Some(s))
  {
    assert s[0] == s[..|Opening|][0];
  }

  /** The opening fence goes with the newline and the white space that starts the body. */
  lemma OpeningRemoved(body: string) returns (m: nat)
    ensures m <= |body| && forall k :: 0 <= k < m ==> IsRegexpSpace(body[k])
    ensures var s := Opening + "\n" + body + "\n" + Fence; |Opening| <= |s| && s[..|Opening|] == Opening
    ensures RemoveOpening(Opening + "\n" + body + "\n" + Fence)
      == if m < |body| then body[m..] + "\n" + Fence else Fence
  {
    var s := Opening + "\n" + body + "\n" + Fence;
    m := SkipForward(body, IsRegexpSpace, 0);
    assert s[..|Opening|] == Opening;
    assert forall k :: 0 <= k < |body| ==> s[12 + k] == body[k];
    assert s[11] == '\n' && s[12 + |body|] == '\n' && s[13 + |body|] == '`';
    if m < |body| {
      SkipForwardTo(s, IsRegexpSpace, 11, 12 + m);
      WrappedSuffix(body, m);
    } else {
      SkipForwardTo(s, IsRegexpSpace, 11, 13 + |body|);
      assert s[13 + |body|..] == Fence;
    }
  }

  /** What follows the first `m` characters of the body in the fenced text. */
  lemma WrappedSuffix(body: string, m: nat)
    requires m <= |body|
    ensures (Opening + "\n" + body + "\n" + Fence)[12 + m..] == body[m..] + "\n" + Fence
  {
    var s, u := Opening + "\n" + body + "\n" + Fence, body[m..] + "\n" + Fence;
    assert forall k :: 0 <= k < |u| ==> s[12 + m + k] == u[k];
  }

  /** The closing fence goes with the newline before it. */
  lemma ClosingRemoved(t: string)
    ensures RemoveClosing(t + "\n" + Fence) == t
  {
    var s := t + "\n" + Fence;
    assert s[|s| - 3..|s|] == Fence;
    assert s[..|s| - 4] == t;
  }

  /** Content with neither fence is only stripped. */
  lemma UnfencedContent(s: string)
    requires !Blank(Some(s))
    requires |s| < |Opening| || s[..|Opening|] != Opening
    requires var n := SkipBackward(s, IsRegexpSpace, |s|); n < 3 || s[n - 3..n] != Fence
    ensures StripMarkdownFence(Some(s)) == Some(Strip(s))
  {
  }

  // =============================================================================================
  // sanitize_and_extract

  /**
   * A value JSON.parse returns. `shown` is Ruby's `to_s` of a number, array or hash, which is what
   * a text column stores when such a value is assigned to it.
   */
  datatype JsonValue =
    | JNull
    | JBool(b: bool)
    | JNumber(shown: string)
    | JString(s: string)
    | JArray(items: seq<JsonValue>, shown: string)
    | JObject(fields: map<string, JsonValue>, shown: string)

  /** DocumentParser::Result. `content` is whatever Ruby value the parser put there. */
  datatype ParseResult = ParseResult(content: JsonValue, publishedAt: Option<Date>)

  /**
   * `parsed[key]`, or None where it raises: a Hash gives the member or nil; a String gives `key`
   * itself when it occurs in the string and nil otherwise; nil, true, false, numbers and arrays
   * raise (NoMethodError or TypeError).
   */
  function Member(parsed: JsonValue, key: string): Option<JsonValue> {
    match parsed
    case JObject(fields, _) => Some(if key in fields then fields[key] else JNull)
    case JString(s) => Some(if Contains(s, key) then JString(key) else JNull)
    case _ => None
  }

  /** ActiveSupport's `present?` on a parsed value. */
  predicate IsPresent(v: JsonValue) {
    match v
    case JNull => false
    case JBool(b) => b
    case JNumber(_) => true
    case JString(s) => Present(Some(s))
    case JArray(items, _) => items != []
    case JObject(fields, _) => fields != map[]
  }

  /** `Date.parse(v)`: only a String is parsed; anything else raises TypeError. */
  function DateOf(v: JsonValue, date: string -> Result<Date, Exception>): Result<Date, Exception> {
    if v.JString? then date(v.s)
    else Failure(Exception("TypeError", "no implicit conversion into String"))
  }

  /**
   * Lines 137-140 on a parsed reply: the result, or None where a lookup or Date.parse raises.
   */
  function Extracted(parsed: JsonValue, date: string -> Result<Date, Exception>): Option<ParseResult> {
    match Member(parsed, "published_at")
    case None => None
    case Some(field) =>
      if !IsPresent(field) then Some(ParseResult(Member(parsed, "content").value, None))
      else match DateOf(field, date)
        case Failure(_) => None
        case Success(d) => Some(ParseResult(Member(parsed, "content").value, Some(d)))
  }

  /** The rescue branch: the unsanitised input and no date. */
  function Unsanitised(content: string): ParseResult {
    ParseResult(JString(content), None)
  }

  /**
   * sanitize_and_extract(content), given the chat reply to the request carrying `content`, and
   * JSON.parse and Date.parse as functions.
   */
  function SanitizeAndExtract(content: string, reply: Completion, json: string -> BaseScanner.JsonParse<JsonValue>,
                              date: string -> Result<Date, Exception>): ParseResult
  {
    match reply
    case Failure(_) => Unsanitised(content)
    case Success(text) =>
      match StripMarkdownFence(text)
      case None => Unsanitised(content)
      case Some(stripped) =>
        match json(stripped)
        case Malformed(_) => Unsanitised(content)
        case Parsed(parsed) => Extracted(parsed, date).GetOr(Unsanitised(content))
  }

  /**
   * Every failure falls back to the unsanitised input with no date: a request that raises, a
   * blank reply, JSON that does not parse, a reply whose fields cannot be read, and a date that
   * does not parse.
   */
  lemma SanitizeFailuresFallBack(content: string, reply: Completion, json: string -> BaseScanner.JsonParse<JsonValue>,
                                 date: string -> Result<Date, Exception>)
    requires reply.Failure? || Blank(reply.value) || json(StripMarkdownFence(reply.value).value).Malformed?
      || Extracted(json(StripMarkdownFence(reply.value).value).value, date).None?
    ensures SanitizeAndExtract(content, reply, json, date) == Unsanitised(content)
  {
  }

  /**
   * A reply that parses to a JSON object gives that object's `content` member (nil when absent) and
   * a date exactly when `published_at` is a present string that Date.parse accepts; an absent or
   * blank `published_at` gives no date.
   */
  lemma SanitizedObject(content: string, reply: Completion, json: string -> BaseScanner.JsonParse<JsonValue>,
                        date: string -> Result<Date, Exception>, fields: map<string, JsonValue>, shown: string)
    requires reply.Success? && !Blank(reply.value)
    requires json(StripMarkdownFence(reply.value).value) == BaseScanner.Parsed(JObject(fields, shown))
    ensures var r := SanitizeAndExtract(content, reply, json, date);
      var cleaned := if "content" in fields then fields["content"] else JNull;
      var published := if "published_at" in fields then fields["published_at"] else JNull;
      (!IsPresent(published) ==> r == ParseResult(cleaned, None))
      && (IsPresent(published) && published.JString? && date(published.s).Success? ==>
            r == ParseResult(cleaned, Some(date(published.s).value)))
      && (IsPresent(published) && (!published.JString? || date(published.s).Failure?) ==> r == Unsanitised(content))
  {
  }

  /**
   * A date in the result always comes from a present `published_at` string of the reply: there is
   * never a date without one.
   */
  lemma DateOnlyFromReply(content: string, reply: Completion, json: string -> BaseScanner.JsonParse<JsonValue>,
                          date: string -> Result<Date, Exception>)
    ensures var r := SanitizeAndExtract(content, reply, json, date);
      r.publishedAt.Some? ==>
        reply.Success? && !Blank(reply.value)
        && (var parsed := json(StripMarkdownFence(reply.value).value);
            parsed.Parsed? && Member(parsed.value, "published_at").Some?
            && (var field := Member(parsed.value, "published_at").value;
                IsPresent(field) && field.JString? && date(field.s) == Success(r.publishedAt.value)))
  {
  }

  // =============================================================================================
  // The page list: Dir.glob(...).sort

  /**
   * Ruby's String#<=> as an at-most relation: compares character by character (code point order
   * is UTF-8 byte order), a proper prefix coming first.
   */
  predicate AtMost(a: string, b: string) {
    AtMostFrom(a, b, 0)
  }

  predicate AtMostFrom(a: string, b: string, i: nat)
    requires i <= |a| && i <= |b|
    decreases |a| - i
  {
    if i == |a| then true
    else if i == |b| then false
    else if a[i] != b[i] then a[i] < b[i]
    else AtMostFrom(a, b, i + 1)
  }

  /** Any two strings are ordered one way or the other. */
  lemma {:induction false} AtMostTotal(a: string, b: string, i: nat)
    requires i <= |a| && i <= |b|
    ensures AtMostFrom(a, b, i) || AtMostFrom(b, a, i)
    decreases |a| - i
  {
    if i < |a| && i < |b| && a[i] == b[i] {
      AtMostTotal(a, b, i + 1);
    }
  }

  /** Strings ordered both ways are equal past `i`, and hence equal when they agree before it. */
  lemma {:induction false} AtMostAntisymmetric(a: string, b: string, i: nat)
    requires i <= |a| && i <= |b| && a[..i] == b[..i]
    requires AtMostFrom(a, b, i) && AtMostFrom(b, a, i)
    ensures a == b
    decreases |a| - i
  {
    if i < |a| {
      assert a[..i + 1] == a[..i] + [a[i]] && b[..i + 1] == b[..i] + [b[i]];
      AtMostAntisymmetric(a, b, i + 1);
    } else {
      assert a == a[..i] && b == b[..i];
    }
  }

  predicate Sorted(s: seq<string>) {
    forall i, j :: 0 <= i < j < |s| ==> AtMost(s[i], s[j])
  }

  /** `x` placed into sorted `s` after every element it does not precede. */
  function Insert(s: seq<string>, x: string): seq<string>
    decreases |s|
  {
    if s == [] || AtMost(s[|s| - 1], x) then s + [x]
    else Insert(s[..|s| - 1], x) + [s[|s| - 1]]
  }

  /** Enumerable#sort, as an insertion sort. */
  function Sort(s: seq<string>): seq<string>
    decreases |s|
  {
    if s == [] then [] else Insert(Sort(s[..|s| - 1]), s[|s| - 1])
  }

  lemma {:induction false} InsertSorted(s: seq<string>, x: string)
    requires Sorted(s)
    ensures Sorted(Insert(s, x)) && multiset(Insert(s, x)) == multiset(s) + multiset{x}
    decreases |s|
  {
    if s == [] || AtMost(s[|s| - 1], x) {
      forall k | 0 <= k < |s| ensures AtMost(s[k], x) {
        if k < |s| - 1 {
          AtMostTransitive(s[k], s[|s| - 1], x, 0);
        }
      }
      AppendGreatest(s, x);
    } else {
      var init, last := s[..|s| - 1], s[|s| - 1];
      assert s == init + [last];
      InsertSorted(init, x);
      var r := Insert(init, x);
      AtMostTotal(last, x, 0);
      forall k | 0 <= k < |r| ensures AtMost(r[k], last) {
        assert r[k] in multiset(init) + multiset{x};
        if r[k] != x {
          var m :| 0 <= m < |init| && init[m] == r[k];
        }
      }
      AppendGreatest(r, last);
    }
  }

  /** An element no smaller than any of a sorted sequence can go at its end. */
  lemma AppendGreatest(s: seq<string>, x: string)
    requires Sorted(s) && forall k :: 0 <= k < |s| ==> AtMost(s[k], x)
    ensures Sorted(s + [x])
  {
    var r := s + [x];
    assert forall k :: 0 <= k < |s| ==> r[k] == s[k];
  }

  /** The order is transitive, from position `i` on. */
  lemma {:induction false} AtMostTransitive(a: string, b: string, c: string, i: nat)
    requires i <= |a| && i <= |b| && i <= |c|
    requires AtMostFrom(a, b, i) && AtMostFrom(b, c, i)
    ensures AtMostFrom(a, c, i)
    decreases |a| - i
  {
    if i < |a| && i < |b| && i < |c| && a[i] == b[i] && b[i] == c[i] {
      AtMostTransitive(a, b, c, i + 1);
    }
  }

  /** The pages come out in order, and they are the pages found. */
  lemma {:induction false} SortSortsPages(s: seq<string>)
    ensures Sorted(Sort(s)) && multiset(Sort(s)) == multiset(s)
    decreases |s|
  {
    if s != [] {
      SortSortsPages(s[..|s| - 1]);
      InsertSorted(Sort(s[..|s| - 1]), s[|s| - 1]);
      assert s == s[..|s| - 1] + [s[|s| - 1]];
    }
  }

  // =============================================================================================
  // extract_text_with_openai

  /** One entry of the vision request's `content`: the fixed instruction, or a page image. */
  datatype Part = Instructions | ImageUrl(url: string)

  /** The data URL of a page, given the Base64 of its file. */
  function DataUrl(base64: string): string {
    "data:image/png;base64," + base64
  }

  /**
   * The image parts of the first `n` pages, or what reading the first unreadable one raised.
   * `encoded` reads a page file and Base64-encodes it.
   */
  function ImagesUpTo(paths: seq<string>, encoded: string -> Result<string, Exception>, n: nat): Result<seq<Part>, Exception>
    requires n <= |paths|
  {
    if n == 0 then Success([])
    else match ImagesUpTo(paths, encoded, n - 1)
      case Failure(e) => Failure(e)
      case Success(parts) =>
        match encoded(paths[n - 1])
        case Failure(e) => Failure(e)
        case Success(b) => Success(parts + [ImageUrl(DataUrl(b))])
  }

  /**
   * The images are the pages' data URLs, one per page and in page order, when every page reads;
   * otherwise the error is that of the first page that does not.
   */
  lemma {:induction false} ImagesMeaning(paths: seq<string>, encoded: string -> Result<string, Exception>, n: nat)
    requires n <= |paths|
    ensures var r := ImagesUpTo(paths, encoded, n);
      (r.Success? <==> forall k :: 0 <= k < n ==> encoded(paths[k]).Success?)
      && (r.Success? ==>
            |r.value| == n && forall k :: 0 <= k < n ==> r.value[k] == ImageUrl(DataUrl(encoded(paths[k]).value)))
      && (r.Failure? ==>
            exists k :: 0 <= k < n && encoded(paths[k]) == Failure(r.error) && forall j :: 0 <= j < k ==> encoded(paths[j]).Success?)
  {
    if n > 0 {
      ImagesMeaning(paths, encoded, n - 1);
      var r := ImagesUpTo(paths, encoded, n - 1);
      if r.Failure? {
        var k :| 0 <= k < n - 1 && encoded(paths[k]) == Failure(r.error)
          && forall j :: 0 <= j < k ==> encoded(paths[j]).Success?;
      }
    }
  }

  /** extract_text_with_openai's value: nil when a page cannot be read or the request raises. */
  function ExtractedText(paths: seq<string>, encoded: string -> Result<string, Exception>,
                         vision: seq<Part> -> Completion): Option<string>
  {
    match ImagesUpTo(paths, encoded, |paths|)
    case Failure(_) => None
    case Success(images) =>
      match vision([Instructions] + images)
      case Failure(_) => None
      case Success(content) => StripMarkdownFence(content)
  }

  /** An unreadable page stays unreadable: every longer prefix fails too. */
  lemma {:induction false} ImagesFailureSticks(paths: seq<string>, encoded: string -> Result<string, Exception>, n: nat, m: nat)
    requires n <= m <= |paths| && ImagesUpTo(paths, encoded, n).Failure?
    ensures ImagesUpTo(paths, encoded, m).Failure?
    decreases m - n
  {
    if n < m {
      ImagesFailureSticks(paths, encoded, n + 1, m);
    }
  }

  /** extract_text_with_openai: the instruction, then one image per page, sent in one request. */
  method ExtractText(paths: seq<string>, encoded: string -> Result<string, Exception>,
                     vision: seq<Part> -> Completion) returns (text: Option<string>)
    ensures text == ExtractedText(paths, encoded, vision)
  {
    var content := [Instructions];
    ghost var images: seq<Part> := [];
    var i := 0;
    while i < |paths|
      invariant i <= |paths|
      invariant content == [Instructions] + images && ImagesUpTo(paths, encoded, i) == Success(images)
    {
      var image := encoded(paths[i]);
      if image.Failure? {
        ImagesFailureSticks(paths, encoded, i + 1, |paths|);
        return None;
      }
      content := content + [ImageUrl(DataUrl(image.value))];
      images := images + [ImageUrl(DataUrl(image.value))];
      i := i + 1;
    }
    var reply := vision(content);
    if reply.Failure? {
      return None;
    }
    text := StripMarkdownFence(reply.value);
  }

  // =============================================================================================
  // parse

  const WordContentTypes: seq<string> := [
    "application/vnd.openxmlformats-officedocument.wordprocessingml.document",
    "application/msword"
  ]
  const PdfContentType: string := "application/pdf"

  /** What Open3.capture3 gives: the exit status and stdout, or what it raised (a missing binary, say). */
  datatype Exec = Exited(success: bool, stdout: string) | Raised(error: Exception)

  /**
   * The answers of everything outside the parser: whether opening the attachment raises, the two
   * converters, the page files pdftoppm leaves (in Dir.glob's order), reading and Base64-encoding
   * a page file, the vision request, the sanitising request on a given text, JSON.parse and
   * Date.parse.
   */
  datatype Tools = Tools(
    openError: Option<Exception>,
    pandoc: Exec,
    pdftoppm: Exec,
    pages: seq<string>,
    encoded: string -> Result<string, Exception>,
    vision: seq<Part> -> Completion,
    sanitize: string -> Completion,
    json: string -> BaseScanner.JsonParse<JsonValue>,
    date: string -> Result<Date, Exception>)

  /** The value of the `case` on the content type inside `@attachment.open`, or what it raised. */
  function Converted(contentType: string, tools: Tools): Result<Option<string>, Exception> {
    if contentType in WordContentTypes then
      match tools.pandoc
      case Raised(e) => Failure(e)
      case Exited(success, stdout) => Success(if success then Some(stdout) else None)
    else if contentType == PdfContentType then
      match tools.pdftoppm
      case Raised(e) => Failure(e)
      case Exited(success, _) =>
        if !success || tools.pages == [] then Success(None)
        else Success(ExtractedText(Sort(tools.pages), tools.encoded, tools.vision))
    else Success(None)
  }

  /** DocumentParser.new(document).parse. */
  function Parse(document: Attachment, tools: Tools): Option<ParseResult> {
    match document
    case Unattached => None
    case Attached(contentType) =>
      if tools.openError.Some? then None
      else match Converted(contentType, tools)
        case Failure(_) => None
        case Success(content) =>
          if Blank(content) then None
          else Some(SanitizeAndExtract(content.value, tools.sanitize(content.value), tools.json, tools.date))
  }

  /** parse, running extract_text_with_openai's loop for a PDF. */
  method ParseDocument(document: Attachment, tools: Tools) returns (r: Option<ParseResult>)
    ensures r == Parse(document, tools)
  {
    if document.Unattached? || tools.openError.Some? {
      return None;
    }
    var content: Option<string> := None;
    if document.contentType in WordContentTypes {
      if tools.pandoc.Raised? {
        return None;
      }
      if tools.pandoc.success {
        content := Some(tools.pandoc.stdout);
      }
    } else if document.contentType == PdfContentType {
      if tools.pdftoppm.Raised? {
        return None;
      }
      if tools.pdftoppm.success {
        var pages := Sort(tools.pages);
        if pages != [] {
          content := ExtractText(pages, tools.encoded, tools.vision);
        }
      }
    }
    if Blank(content) {
      return None;
    }
    r := Some(SanitizeAndExtract(content.value, tools.sanitize(content.value), tools.json, tools.date));
  }

  // ---------------------------------------------------------------------------------------------
  // What parse promises

  /**
   * parse gives a result exactly when the document is attached, opens, is a Word file pandoc
   * converts or a PDF whose pages are found and read into non-blank text; then the result is the
   * sanitised text.
   */
  lemma ParseYieldsResult(document: Attachment, tools: Tools)
    ensures var r := Parse(document, tools);
      r.Some? <==>
        document.Attached? && tools.openError.None?
        && ((document.contentType in WordContentTypes && tools.pandoc.Exited? && tools.pandoc.success
              && !Blank(Some(tools.pandoc.stdout)))
            || (document.contentType == PdfContentType && tools.pdftoppm.Exited? && tools.pdftoppm.success
              && tools.pages != [] && !Blank(ExtractedText(Sort(tools.pages), tools.encoded, tools.vision))))
  {
    if document.Attached? && document.contentType in WordContentTypes {
      assert document.contentType != PdfContentType;
    }
  }

  /** Any content type other than the two Word types and PDF yields nil. */
  lemma OtherTypesYieldNil(contentType: string, tools: Tools)
    requires contentType !in WordContentTypes && contentType != PdfContentType
    ensures Parse(Attached(contentType), tools) == None
  {
  }

  /** A PDF is read page by page in sorted order: the vision request carries the sorted pages. */
  lemma PdfPagesInOrder(tools: Tools)
    requires tools.openError.None? && tools.pdftoppm.Exited? && tools.pdftoppm.success && tools.pages != []
    ensures var pages := Sort(tools.pages);
      Sorted(pages) && multiset(pages) == multiset(tools.pages)
      && Converted(PdfContentType, tools) == Success(ExtractedText(pages, tools.encoded, tools.vision))
  {
    SortSortsPages(tools.pages);
    assert PdfContentType !in WordContentTypes;
  }
}
