/**
 * The SpamSpan text filter: e-mail addresses, `addr[url|text]` forms and
 * `mailto:` anchors (section 2 of RFC 2368) are rewritten into nested spans
 * or a contact-form link.
 *
 * The regular expressions are given as matchers that cut a text into literal
 * pieces and matches with their captures; Xss filtering, strip_tags,
 * parse_url, the URL codecs, HTML escaping, base64 and translation are given
 * as functions.
 */
module Spamspan {
  import opened Php

  // ---------------------------------------------------------------------------
  // Matches

  /** A text cut by a regular expression: literal text and matches. */
  datatype Piece<C> = Text(text: string) | Found(whole: string, captures: C)

  /** The captures each pattern yields. */
  datatype Captures =
    | MailtoCaptures(before: string, url: string, name: string, domain: string, after: string, contents: string)
    | OptionCaptures(name: string, domain: string, options: string)
    | BareCaptures(name: string, domain: string)

  /** The four patterns: inline images, mailto anchors, addresses with options, bare addresses. */
  datatype Matchers = Matchers(
    images: string -> seq<Piece<()>>,
    mailto: string -> seq<Piece<Captures>>,
    withOptions: string -> seq<Piece<Captures>>,
    bare: string -> seq<Piece<Captures>>)

  /** The text a piece was cut from. */
  function Source<C>(piece: Piece<C>): string {
    if piece.Text? then piece.text else piece.whole
  }

  /** The text a cut was made from. */
  function Whole<C>(pieces: seq<Piece<C>>): string
    decreases |pieces|
  {
    if pieces == [] then "" else Source(pieces[0]) + Whole(pieces[1..])
  }

  /** `preg_replace($pattern, '', $s)`: the literal pieces only. */
  function WithoutMatches<C>(pieces: seq<Piece<C>>): string
    decreases |pieces|
  {
    if pieces == [] then ""
    else (match pieces[0] case Text(t) => t case Found(_, _) => "") + WithoutMatches(pieces[1..])
  }

  predicate NoMatches<C>(pieces: seq<Piece<C>>) {
    forall i :: 0 <= i < |pieces| ==> pieces[i].Text?
  }

  // ---------------------------------------------------------------------------
  // Settings and services

  datatype Settings = Settings(
    at: string,
    useGraphic: bool,
    dotEnable: bool,
    dot: string,
    useForm: bool,
    formPattern: string,
    formDefaultUrl: string,
    formDefaultDisplaytext: string)

  /** What `parse_url` reports of a URL: its host, when it has one. */
  datatype UrlParts = UrlParts(host: Option<string>)

  datatype Env = Env(
    renderAtSign: Settings -> string,
    xssFilter: string -> string,
    stripTags: string -> string,
    rawUrlEncode: string -> string,
    rawUrlDecode: string -> string,
    htmlEscape: string -> string,
    parseUrl: string -> Option<UrlParts>,
    urlQuery: string -> Option<string>,
    basePath: string,
    encodeEmail: string -> string,
    translate: string -> string)

  /** The headers `output()` receives: a list, or the string the with-options callback passes. */
  datatype Headers = HeaderList(items: seq<string>) | HeaderString(s: string)

  /** The optional `$vars` entries. */
  datatype Vars = Vars(customFormUrl: Option<string>, customDisplaytext: Option<string>, extraAttributes: Option<string>)

  const NoVars := Vars(None, None, None)

  predicate EmptyVar(v: Option<string>) {
    v.None? || EmptyStr(v.value)
  }

  // ---------------------------------------------------------------------------
  // output()

  /** The form-mode result: the pattern with %url, %displaytext and %email substituted. */
  function FormOutput(settings: Settings, env: Env, name: string, domain: string, vars: Vars): string {
    var email := env.encodeEmail(name + "@" + domain);
    var text := env.stripTags(if EmptyVar(vars.customDisplaytext) then env.translate(settings.formDefaultDisplaytext)
                              else vars.customDisplaytext.value);
    Strtr(settings.formPattern, [("%url", FormUrl(settings, env, vars)), ("%displaytext", text), ("%email", email)])
  }

  /** The form URL: the default when none is given; '' when it does not parse; site-relative when it has no host. */
  function FormUrl(settings: Settings, env: Env, vars: Vars): string {
    var url := env.stripTags(if EmptyVar(vars.customFormUrl) then settings.formDefaultUrl else vars.customFormUrl.value);
    match env.parseUrl(url)
    case None => ""
    case Some(parts) => if EmptyVar(parts.host) then env.basePath + Trim(url, {'/'}) else url
  }

  /** One mailto header made readable: encoded unless already encoded, '=' shown as ': '. */
  function EncodeHeader(env: Env, header: string): string {
    if header == env.rawUrlDecode(header) then ReplaceFirst(env.rawUrlEncode(header), "%3D", ": ")
    else StrReplace(header, "=", ": ")
  }

  function EncodeHeaders(env: Env, headers: seq<string>): (r: seq<string>)
    ensures |r| == |headers|
    ensures forall i :: 0 <= i < |r| ==> r[i] == EncodeHeader(env, headers[i])
  {
    seq(|headers|, i requires 0 <= i < |headers| => EncodeHeader(env, headers[i]))
  }

  /**
   * The 'h' span. A header list gives it only when non-empty; the string the
   * with-options callback passes counts as one header, is not iterated, and
   * implodes to nothing.
   */
  function HeaderSpan(env: Env, headers: Headers): string {
    match headers
    case HeaderList(items) =>
      if |items| == 0 then ""
      else "<span class=\"h\"> (" + env.htmlEscape(Implode(", ", EncodeHeaders(env, items))) + ") </span>"
    case HeaderString(_) => "<span class=\"h\"> () </span>"
  }

  /** The 't' span: anchor contents with addresses removed and filtered, when something remains. */
  function ContentsSpan(env: Env, bare: string -> seq<Piece<Captures>>, contents: string): string {
    if EmptyStr(contents) then ""
    else
      var filtered := env.xssFilter(WithoutMatches(bare(contents)));
      if EmptyStr(filtered) then "" else "<span class=\"t\"> (" + filtered + ")</span>"
  }

  /** The 'e' span: the other anchor attributes inside an HTML comment. */
  function ExtraSpan(env: Env, vars: Vars): string {
    if EmptyVar(vars.extraAttributes) then ""
    else "<span class=\"e\"><!--" + env.stripTags(vars.extraAttributes.value) + "--></span>"
  }

  function DotSpan(settings: Settings): string {
    "<span class=\"o\">" + settings.dot + "</span>"
  }

  /** The name or domain as shown: each '.' replaced by the dot span when that is enabled. */
  function Dotted(settings: Settings, part: string): string {
    if settings.dotEnable then StrReplace(part, ".", DotSpan(settings)) else part
  }

  /** The 'u' and 'd' spans around the at sign (its text, or the rendered graphic). */
  function AddressSpans(settings: Settings, env: Env, name: string, domain: string): string {
    var at := if settings.useGraphic then env.renderAtSign(settings) else settings.at;
    "<span class=\"u\">" + Dotted(settings, name) + "</span>" + at + "<span class=\"d\">" + Dotted(settings, domain) + "</span>"
  }

  /** The span markup for one address (the mode that is not form mode). */
  function SpanOutput(settings: Settings, env: Env, bare: string -> seq<Piece<Captures>>,
                      name: string, domain: string, contents: string, headers: Headers, vars: Vars): string {
    "<span class=\"spamspan\">" + AddressSpans(settings, env, name, domain)
    + HeaderSpan(env, headers) + ContentsSpan(env, bare, contents) + ExtraSpan(env, vars)
    + "</span>"
  }

  /** What `output()` returns. */
  function OutputText(settings: Settings, env: Env, bare: string -> seq<Piece<Captures>>,
                      name: string, domain: string, contents: string, headers: Headers, vars: Vars): string {
    if settings.useForm then FormOutput(settings, env, name, domain, vars)
    else SpanOutput(settings, env, bare, name, domain, contents, headers, vars)
  }

  // ---------------------------------------------------------------------------
  // The callbacks' arguments

  /** The mailto headers: the decoded query split on '&' and ';', none when the first piece is empty. */
  function MailtoQuery(env: Env, url: string): string {
    StrReplace(env.urlQuery(StrReplace(url, "&#039;", "'")).GetOr(""), "&amp;", "&")
  }

  function MailtoHeaders(env: Env, url: string): seq<string> {
    var headers := Split(MailtoQuery(env, url), {'&', ';'});
    if headers[0] == "" then [] else headers
  }

  /** The anchor attributes before and after href, each kept (trimmed) when not empty. */
  function MailtoAttributes(before: string, after: string): seq<string> {
    (if EmptyStr(before) then [] else [Trim(before, Whitespace)])
    + (if EmptyStr(after) then [] else [Trim(after, Whitespace)])
  }

  function MailtoVars(before: string, after: string): Vars {
    var attributes := MailtoAttributes(before, after);
    Vars(None, None, if |attributes| > 0 then Some(Implode(" ", attributes)) else None)
  }

  /** A trimmed option, kept only when neither it nor its trimmed form is empty. */
  function OptionValue(option: string): Option<string> {
    if EmptyStr(option) || EmptyStr(Trim(option, Whitespace)) then None else Some(Trim(option, Whitespace))
  }

  /** The `[url|text]` options: the first part overrides the form URL, the second the link text. */
  function OptionVars(options: string): Vars {
    if EmptyStr(options) then NoVars
    else
      var parts := Split(options, {'|'});
      Vars(OptionValue(parts[0]), if |parts| > 1 then OptionValue(parts[1]) else None, None)
  }

  /**
   * The replacement text for one match. A with-options match uses the corrected
   * callback, with no headers; the callback as written, which passes '' as the
   * headers, is `OutputText` with `HeaderString("")`.
   */
  function CallbackText(settings: Settings, env: Env, bare: string -> seq<Piece<Captures>>, captures: Captures): string {
    match captures
    case MailtoCaptures(before, url, name, domain, after, contents) =>
      OutputText(settings, env, bare, name, domain, contents, HeaderList(MailtoHeaders(env, url)), MailtoVars(before, after))
    case OptionCaptures(name, domain, options) =>
      OutputText(settings, env, bare, name, domain, "", HeaderList([]), OptionVars(options))
    case BareCaptures(name, domain) =>
      OutputText(settings, env, bare, name, domain, "", HeaderList([]), NoVars)
  }

  /** What one piece becomes: a literal stays, a match is replaced by its callback's text. */
  function Replacement(settings: Settings, env: Env, bare: string -> seq<Piece<Captures>>, piece: Piece<Captures>): string {
    if piece.Text? then piece.text else CallbackText(settings, env, bare, piece.captures)
  }

  /** `preg_replace_callback`: literal pieces are kept, each match is replaced by its callback's text. */
  function Replaced(settings: Settings, env: Env, bare: string -> seq<Piece<Captures>>, pieces: seq<Piece<Captures>>): string
    decreases |pieces|
  {
    if pieces == [] then ""
    else
      Replacement(settings, env, bare, pieces[0]) + Replaced(settings, env, bare, pieces[1..])
  }

  // ---------------------------------------------------------------------------
  // Inline images

  const Placeholder: string := "__spamspan_img_placeholder__"

  /** The text with every image match replaced by the placeholder. */
  function Swapped(pieces: seq<Piece<()>>, placeholder: string): string
    decreases |pieces|
  {
    if pieces == [] then ""
    else (if pieces[0].Text? then pieces[0].text else placeholder) + Swapped(pieces[1..], placeholder)
  }

  /** The image matches, in order. */
  function Images(pieces: seq<Piece<()>>): (r: seq<string>)
    decreases |pieces|
  {
    if pieces == [] then []
    else (match pieces[0] case Text(_) => [] case Found(w, _) => [w]) + Images(pieces[1..])
  }

  /** Each image in turn replaces the first remaining placeholder. */
  function RestoreImages(text: string, images: seq<string>, placeholder: string): string
    requires placeholder != ""
    decreases |images|
  {
    if images == [] then text
    else RestoreImages(ReplaceFirst(text, placeholder, images[0]), images[1..], placeholder)
  }

  /** The libraries `process` attaches. */
  function Libraries(textAltered: bool, useGraphic: bool): seq<string> {
    if !textAltered then []
    else ["spamspan/obfuscate"] + (if useGraphic then ["spamspan/atsign"] else [])
  }

  datatype FilterResult = FilterResult(text: string, libraries: seq<string>)

  /** The three passes over the text with images swapped out. */
  function Passes(settings: Settings, env: Env, m: Matchers, swapped: string): (string, string, string) {
    var t1 := Replaced(settings, env, m.bare, m.mailto(swapped));
    var t2 := Replaced(settings, env, m.bare, m.withOptions(t1));
    var t3 := Replaced(settings, env, m.bare, m.bare(t2));
    (t1, t2, t3)
  }

  /** The text `process` returns. */
  function ProcessText(settings: Settings, env: Env, m: Matchers, text: string): string {
    var imagePieces := m.images(text);
    RestoreImages(Passes(settings, env, m, Swapped(imagePieces, Placeholder)).2, Images(imagePieces), Placeholder)
  }

  predicate HasMatch(pieces: seq<Piece<Captures>>) {
    exists i :: 0 <= i < |pieces| && pieces[i].Found?
  }

  /** Whether one of the passes produced span output. */
  predicate ProcessAlters(settings: Settings, env: Env, m: Matchers, text: string) {
    var swapped := Swapped(m.images(text), Placeholder);
    var t := Passes(settings, env, m, swapped);
    !settings.useForm && (HasMatch(m.mailto(swapped)) || HasMatch(m.withOptions(t.0)) || HasMatch(m.bare(t.1)))
  }

  lemma ReplacedStep(settings: Settings, env: Env, bare: string -> seq<Piece<Captures>>, pieces: seq<Piece<Captures>>, i: nat)
    requires i < |pieces|
    ensures Replaced(settings, env, bare, pieces[i..])
      == Replacement(settings, env, bare, pieces[i]) + Replaced(settings, env, bare, pieces[i + 1..])
  {
    assert pieces[i..][1..] == pieces[i + 1..];
  }

  lemma HasMatchStep(pieces: seq<Piece<Captures>>, i: nat)
    requires i < |pieces|
    ensures HasMatch(pieces[..i + 1]) == (HasMatch(pieces[..i]) || pieces[i].Found?)
  {
    assert pieces[..i + 1][..i] == pieces[..i];
    assert pieces[..i + 1][i] == pieces[i];
    if HasMatch(pieces[..i + 1]) && !pieces[i].Found? {
      var j :| 0 <= j < i + 1 && pieces[..i + 1][j].Found?;
      assert pieces[..i][j].Found?;
    }
  }

  // ---------------------------------------------------------------------------
  // The filter

  class FilterSpamspan {
    const settings: Settings
    var textAltered: bool

    constructor (settings: Settings)
      ensures this.settings == settings && !textAltered
    {
      this.settings := settings;
      textAltered := false;
    }

    /** The header loop of `output()`. */
    static method EncodeHeaderList(env: Env, headers: seq<string>) returns (r: seq<string>)
      ensures r == EncodeHeaders(env, headers)
    {
      r := headers;
      var key := 0;
      while key < |headers|
        invariant 0 <= key <= |headers| && |r| == |headers|
        invariant forall i :: 0 <= i < key ==> r[i] == EncodeHeader(env, headers[i])
        invariant forall i :: key <= i < |headers| ==> r[i] == headers[i]
      {
        var header := headers[key];
        if header == env.rawUrlDecode(header) {
          header := env.rawUrlEncode(header);
          header := ReplaceFirst(header, "%3D", ": ");
        } else {
          header := StrReplace(header, "=", ": ");
        }
        r := r[key := header];
        key := key + 1;
      }
    }

    /** `output()`: span markup (which marks the text as altered) or the form link. */
    method Output(env: Env, bare: string -> seq<Piece<Captures>>, name: string, domain: string,
                  contents: string, headers: Headers, vars: Vars) returns (out: string)
      modifies this
      ensures out == OutputText(settings, env, bare, name, domain, contents, headers, vars)
      ensures textAltered == (old(textAltered) || !settings.useForm)
    {
      if settings.useForm {
        return FormOutput(settings, env, name, domain, vars);
      }
      var at := settings.at;
      if settings.useGraphic {
        at := env.renderAtSign(settings);
      }
      var shownName, shownDomain := name, domain;
      if settings.dotEnable {
        shownName := StrReplace(name, ".", DotSpan(settings));
        shownDomain := StrReplace(domain, ".", DotSpan(settings));
      }
      var addressSpans := "<span class=\"u\">" + shownName + "</span>" + at + "<span class=\"d\">" + shownDomain + "</span>";
      assert addressSpans == AddressSpans(settings, env, name, domain);
      var headerSpan := "";
      match headers {
        case HeaderList(items) =>
          if |items| > 0 {
            var encoded := EncodeHeaderList(env, items);
            headerSpan := "<span class=\"h\"> (" + env.htmlEscape(Implode(", ", encoded)) + ") </span>";
          }
        case HeaderString(_) =>
          headerSpan := "<span class=\"h\"> () </span>";
      }
      assert headerSpan == HeaderSpan(env, headers);
      var contentsSpan := ContentsSpan(env, bare, contents);
      var extraSpan := ExtraSpan(env, vars);
      out := "<span class=\"spamspan\">" + addressSpans + headerSpan + contentsSpan + extraSpan
        + "</span>";
      if !textAltered {
        textAltered := true;
      }
    }

    /** `callbackMailto`. */
    method CallbackMailto(env: Env, bare: string -> seq<Piece<Captures>>, captures: Captures) returns (out: string)
      requires captures.MailtoCaptures?
      modifies this
      ensures out == CallbackText(settings, env, bare, captures)
      ensures textAltered == (old(textAltered) || !settings.useForm)
    {
      var url := StrReplace(captures.url, "&#039;", "'");
      var query := StrReplace(env.urlQuery(url).GetOr(""), "&amp;", "&");
      var headers := Split(query, {'&', ';'});
      if headers[0] == "" {
        headers := [];
      }
      var attributes: seq<string> := [];
      if !EmptyStr(captures.before) {
        attributes := attributes + [Trim(captures.before, Whitespace)];
      }
      if !EmptyStr(captures.after) {
        attributes := attributes + [Trim(captures.after, Whitespace)];
      }
      var vars := NoVars;
      if |attributes| > 0 {
        vars := vars.(extraAttributes := Some(Implode(" ", attributes)));
      }
      out := Output(env, bare, captures.name, captures.domain, captures.contents, HeaderList(headers), vars);
    }

    /** `callbackEmailAddressesWithOptions` as written: it passes '' as the headers. */
    method CallbackWithOptionsAsWritten(env: Env, bare: string -> seq<Piece<Captures>>, captures: Captures) returns (out: string)
      requires captures.OptionCaptures?
      modifies this
      ensures out == OutputText(settings, env, bare, captures.name, captures.domain, "", HeaderString(""), OptionVars(captures.options))
      ensures textAltered == (old(textAltered) || !settings.useForm)
    {
      out := Output(env, bare, captures.name, captures.domain, "", HeaderString(""), OptionVars(captures.options));
    }

    /** `callbackEmailAddressesWithOptions` with an empty header list, as the other callbacks pass. */
    method CallbackWithOptions(env: Env, bare: string -> seq<Piece<Captures>>, captures: Captures) returns (out: string)
      requires captures.OptionCaptures?
      modifies this
      ensures out == CallbackText(settings, env, bare, captures)
      ensures textAltered == (old(textAltered) || !settings.useForm)
    {
      var vars := NoVars;
      if !EmptyStr(captures.options) {
        var options := Split(captures.options, {'|'});
        if !EmptyStr(options[0]) {
          var customFormUrl := Trim(options[0], Whitespace);
          if !EmptyStr(customFormUrl) {
            vars := vars.(customFormUrl := Some(customFormUrl));
          }
        }
        if |options| > 1 && !EmptyStr(options[1]) {
          var customDisplaytext := Trim(options[1], Whitespace);
          if !EmptyStr(customDisplaytext) {
            vars := vars.(customDisplaytext := Some(customDisplaytext));
          }
        }
      }
      out := Output(env, bare, captures.name, captures.domain, "", HeaderList([]), vars);
    }

    /** `callbackBareEmailAddresses`. */
    method CallbackBare(env: Env, bare: string -> seq<Piece<Captures>>, captures: Captures) returns (out: string)
      requires captures.BareCaptures?
      modifies this
      ensures out == CallbackText(settings, env, bare, captures)
      ensures textAltered == (old(textAltered) || !settings.useForm)
    {
      out := Output(env, bare, captures.name, captures.domain, "", HeaderList([]), NoVars);
    }

    /** The callback belonging to the captures. */
    method Callback(env: Env, bare: string -> seq<Piece<Captures>>, captures: Captures) returns (out: string)
      modifies this
      ensures out == CallbackText(settings, env, bare, captures)
      ensures textAltered == (old(textAltered) || !settings.useForm)
    {
      match captures {
        case MailtoCaptures(_, _, _, _, _, _) => out := CallbackMailto(env, bare, captures);
        case OptionCaptures(_, _, _) => out := CallbackWithOptions(env, bare, captures);
        case BareCaptures(_, _) => out := CallbackBare(env, bare, captures);
      }
    }

    /** One piece of a pass: literal text is kept, a match goes to its callback. */
    method ReplacePiece(env: Env, bare: string -> seq<Piece<Captures>>, piece: Piece<Captures>) returns (out: string)
      modifies this
      ensures out == Replacement(settings, env, bare, piece)
      ensures textAltered == (old(textAltered) || (!settings.useForm && piece.Found?))
    {
      if piece.Text? {
        out := piece.text;
      } else {
        out := Callback(env, bare, piece.captures);
      }
    }

    /** One round of `preg_replace_callback`: the replacement of piece `i` is appended to `out`. */
    method AppendReplacement(env: Env, bare: string -> seq<Piece<Captures>>, pieces: seq<Piece<Captures>>, i: nat, out: string)
      returns (out': string)
      modifies this
      requires i < |pieces|
      ensures out' + Replaced(settings, env, bare, pieces[i + 1..]) == out + Replaced(settings, env, bare, pieces[i..])
      ensures textAltered == (old(textAltered) || (!settings.useForm && pieces[i].Found?))
    {
      ReplacedStep(settings, env, bare, pieces, i);
      ghost var rest := Replaced(settings, env, bare, pieces[i + 1..]);
      var replacement := ReplacePiece(env, bare, pieces[i]);
      assert (out + replacement) + rest == out + (replacement + rest);
      out' := out + replacement;
    }

    /** `preg_replace_callback` with the callback belonging to the captures. */
    method ReplaceMatches(env: Env, bare: string -> seq<Piece<Captures>>, pieces: seq<Piece<Captures>>) returns (out: string)
      modifies this
      ensures out == Replaced(settings, env, bare, pieces)
      ensures textAltered == (old(textAltered) || (!settings.useForm && HasMatch(pieces)))
    {
      out := "";
      var i := 0;
      while i < |pieces|
        invariant 0 <= i <= |pieces|
        invariant out + Replaced(settings, env, bare, pieces[i..]) == Replaced(settings, env, bare, pieces)
        invariant textAltered == (old(textAltered) || (!settings.useForm && HasMatch(pieces[..i])))
      {
        HasMatchStep(pieces, i);
        out := AppendReplacement(env, bare, pieces, i, out);
        i := i + 1;
      }
      assert pieces[..i] == pieces;
    }

    /** Puts the images back, each into the first remaining placeholder. */
    static method RestoreImageList(text: string, images: seq<string>) returns (r: string)
      ensures r == RestoreImages(text, images, Placeholder)
    {
      r := text;
      var i := 0;
      while i < |images|
        invariant 0 <= i <= |images|
        invariant RestoreImages(r, images[i..], Placeholder) == RestoreImages(text, images, Placeholder)
      {
        assert images[i..][1..] == images[i + 1..];
        r := ReplaceFirst(r, Placeholder, images[i]);
        i := i + 1;
      }
    }

    /** `process()`. */
    method Process(env: Env, m: Matchers, text: string) returns (result: FilterResult)
      modifies this
      ensures result.text == ProcessText(settings, env, m, text)
      ensures textAltered == (old(textAltered) || ProcessAlters(settings, env, m, text))
      ensures result.libraries == Libraries(textAltered, settings.useGraphic)
    {
      var imagePieces := m.images(text);
      var images := Images(imagePieces);
      var t := Swapped(imagePieces, Placeholder);
      t := ReplaceMatches(env, m.bare, m.mailto(t));
      t := ReplaceMatches(env, m.bare, m.withOptions(t));
      t := ReplaceMatches(env, m.bare, m.bare(t));
      t := RestoreImageList(t, images);
      result := FilterResult(t, Libraries(textAltered, settings.useGraphic));
    }
  }

  // ---------------------------------------------------------------------------
  // Properties

  /** With the dot replacement on and a dot text free of '.', no '.' of the address is shown. */
  lemma DotsHidden(settings: Settings, part: string)
    requires settings.dotEnable && '.' !in settings.dot
    ensures '.' !in Dotted(settings, part)
  {
    assert '.' !in DotSpan(settings);
    StrReplaceCharGone(part, '.', DotSpan(settings));
  }

  /** The mailto headers are dropped exactly when the query is empty or starts with a separator; none holds one. */
  lemma MailtoHeadersRule(env: Env, url: string)
    ensures var query := MailtoQuery(env, url);
      (MailtoHeaders(env, url) == [] <==> query == "" || query[0] in {'&', ';'})
      && (MailtoHeaders(env, url) != [] ==> MailtoHeaders(env, url) == Split(query, {'&', ';'}))
      && forall k :: 0 <= k < |MailtoHeaders(env, url)| ==> '&' !in MailtoHeaders(env, url)[k] && ';' !in MailtoHeaders(env, url)[k]
  {
    var query := MailtoQuery(env, url);
    var headers := Split(query, {'&', ';'});
    if query != "" && query[0] !in {'&', ';'} {
      assert headers[0] == [query[0]] + Split(query[1..], {'&', ';'})[0];
    }
  }

  /** Without matches a pass hands back its text. */
  lemma {:induction false} ReplacedWithoutMatches(settings: Settings, env: Env, bare: string -> seq<Piece<Captures>>, pieces: seq<Piece<Captures>>)
    requires NoMatches(pieces)
    ensures Replaced(settings, env, bare, pieces) == Whole(pieces)
    decreases |pieces|
  {
    if pieces != [] {
      assert pieces[0].Text?;
      ReplacedWithoutMatches(settings, env, bare, pieces[1..]);
    }
  }

  /** No position of `s` starts the placeholder or is started by it. */
  predicate PlaceholderFree(s: string, placeholder: string) {
    forall i :: 0 <= i < |s| ==> !StartsWith(s[i..], placeholder) && !StartsWith(placeholder, s[i..])
  }

  predicate PiecesPlaceholderFree(pieces: seq<Piece<()>>, placeholder: string) {
    forall i :: 0 <= i < |pieces| ==> PlaceholderFree(Source(pieces[i]), placeholder)
  }

  /** A match of `p` at the start of `x + b` starts inside `x` or covers all of it. */
  lemma PrefixCompatible(x: string, b: string, p: string)
    ensures StartsWith(x + b, p) ==> StartsWith(x, p) || StartsWith(p, x)
    ensures StartsWith(p, x + b) ==> StartsWith(p, x)
  {
    if StartsWith(x + b, p) {
      if |p| <= |x| {
        assert (x + b)[..|p|] == x[..|p|];
      } else {
        assert p[..|x|] == (x + b)[..|p|][..|x|] == x;
      }
    }
    if StartsWith(p, x + b) {
      assert p[..|x|] == p[..|x + b|][..|x|] == x;
    }
  }

  lemma PlaceholderFreeConcat(a: string, b: string, placeholder: string)
    requires PlaceholderFree(a, placeholder) && PlaceholderFree(b, placeholder)
    ensures PlaceholderFree(a + b, placeholder)
  {
    forall i | 0 <= i < |a + b|
      ensures !StartsWith((a + b)[i..], placeholder) && !StartsWith(placeholder, (a + b)[i..])
    {
      if i >= |a| {
        assert (a + b)[i..] == b[i - |a|..];
      } else {
        assert (a + b)[i..] == a[i..] + b;
        PrefixCompatible(a[i..], b, placeholder);
      }
    }
  }

  /** The first placeholder after a placeholder-free prefix is the one replaced. */
  lemma {:induction false} ReplaceFirstAfterFree(a: string, placeholder: string, rest: string, w: string)
    requires placeholder != "" && PlaceholderFree(a, placeholder)
    ensures ReplaceFirst(a + placeholder + rest, placeholder, w) == a + w + rest
    decreases |a|
  {
    var s := a + placeholder + rest;
    if a == [] {
      assert s == placeholder + rest;
      assert s[..|placeholder|] == placeholder;
      assert s[|placeholder|..] == rest;
    } else {
      assert a[0..] == a;
      assert s == a + (placeholder + rest);
      PrefixCompatible(a, placeholder + rest, placeholder);
      assert !StartsWith(s, placeholder);
      forall i | 0 <= i < |a[1..]|
        ensures !StartsWith(a[1..][i..], placeholder) && !StartsWith(placeholder, a[1..][i..])
      {
        assert a[1..][i..] == a[i + 1..];
      }
      ReplaceFirstAfterFree(a[1..], placeholder, rest, w);
      assert s[1..] == a[1..] + placeholder + rest;
      assert a + w + rest == [a[0]] + (a[1..] + w + rest);
    }
  }

  lemma RestoreTextStep(done: string, pieces: seq<Piece<()>>, placeholder: string)
    requires placeholder != "" && pieces != [] && pieces[0].Text?
    ensures done + Swapped(pieces, placeholder) == (done + pieces[0].text) + Swapped(pieces[1..], placeholder)
    ensures Images(pieces) == Images(pieces[1..])
    ensures done + Whole(pieces) == (done + pieces[0].text) + Whole(pieces[1..])
  {
    var t := pieces[0].text;
    assert Swapped(pieces, placeholder) == t + Swapped(pieces[1..], placeholder);
    assert Images(pieces) == [] + Images(pieces[1..]);
    assert Whole(pieces) == t + Whole(pieces[1..]);
  }

  /** An image piece first: the placeholder, the image and the match text come first. */
  lemma FoundFirst(pieces: seq<Piece<()>>, placeholder: string)
    requires pieces != [] && pieces[0].Found?
    ensures Swapped(pieces, placeholder) == placeholder + Swapped(pieces[1..], placeholder)
    ensures Images(pieces) == [pieces[0].whole] + Images(pieces[1..])
    ensures Whole(pieces) == pieces[0].whole + Whole(pieces[1..])
  {
    assert Source(pieces[0]) == pieces[0].whole;
  }

  /** Restoring the first image into text that starts placeholder-free puts it where the first placeholder was. */
  lemma RestoreFirstImage(done: string, placeholder: string, rest: string, w: string, images: seq<string>)
    requires placeholder != "" && PlaceholderFree(done, placeholder)
    ensures RestoreImages(done + placeholder + rest, [w] + images, placeholder)
      == RestoreImages((done + w) + rest, images, placeholder)
  {
    assert ([w] + images)[0] == w && ([w] + images)[1..] == images;
    ReplaceFirstAfterFree(done, placeholder, rest, w);
  }

  lemma RestoreFoundStep(done: string, pieces: seq<Piece<()>>, placeholder: string)
    requires placeholder != "" && pieces != [] && pieces[0].Found? && PlaceholderFree(done, placeholder)
    ensures RestoreImages(done + Swapped(pieces, placeholder), Images(pieces), placeholder)
      == RestoreImages((done + pieces[0].whole) + Swapped(pieces[1..], placeholder), Images(pieces[1..]), placeholder)
    ensures done + Whole(pieces) == (done + pieces[0].whole) + Whole(pieces[1..])
  {
    var w := pieces[0].whole;
    var swappedRest := Swapped(pieces[1..], placeholder);
    FoundFirst(pieces, placeholder);
    assert done + Swapped(pieces, placeholder) == done + placeholder + swappedRest;
    RestoreFirstImage(done, placeholder, swappedRest, w, Images(pieces[1..]));
  }

  lemma {:induction false} RestoreAfter(done: string, pieces: seq<Piece<()>>, placeholder: string)
    requires placeholder != ""
    requires PlaceholderFree(done, placeholder) && PiecesPlaceholderFree(pieces, placeholder)
    ensures RestoreImages(done + Swapped(pieces, placeholder), Images(pieces), placeholder) == done + Whole(pieces)
    decreases |pieces|
  {
    if pieces == [] {
      assert done + "" == done;
    } else {
      var rest := pieces[1..];
      assert PiecesPlaceholderFree(rest, placeholder) by {
        forall i | 0 <= i < |rest| ensures PlaceholderFree(Source(rest[i]), placeholder) {
          assert rest[i] == pieces[i + 1];
        }
      }
      assert PlaceholderFree(Source(pieces[0]), placeholder);
      PlaceholderFreeConcat(done, Source(pieces[0]), placeholder);
      if pieces[0].Text? {
        RestoreTextStep(done, pieces, placeholder);
      } else {
        RestoreFoundStep(done, pieces, placeholder);
      }
      RestoreAfter(done + Source(pieces[0]), rest, placeholder);
    }
  }

  /** Restoring the images in order undoes swapping them out, when no text can be mistaken for the placeholder. */
  lemma ImagesRoundTrip(pieces: seq<Piece<()>>, placeholder: string)
    requires placeholder != "" && PiecesPlaceholderFree(pieces, placeholder)
    ensures RestoreImages(Swapped(pieces, placeholder), Images(pieces), placeholder) == Whole(pieces)
  {
    RestoreAfter("", pieces, placeholder);
    assert "" + Swapped(pieces, placeholder) == Swapped(pieces, placeholder);
    assert "" + Whole(pieces) == Whole(pieces);
  }

  /** A text without addresses (nor placeholder look-alikes) comes back unchanged and is not marked altered. */
  lemma ProcessWithoutAddresses(settings: Settings, env: Env, m: Matchers, text: string)
    requires Whole(m.images(text)) == text && PiecesPlaceholderFree(m.images(text), Placeholder)
    requires var swapped := Swapped(m.images(text), Placeholder);
      NoMatches(m.mailto(swapped)) && Whole(m.mailto(swapped)) == swapped
      && NoMatches(m.withOptions(swapped)) && Whole(m.withOptions(swapped)) == swapped
      && NoMatches(m.bare(swapped)) && Whole(m.bare(swapped)) == swapped
    ensures ProcessText(settings, env, m, text) == text
    ensures !ProcessAlters(settings, env, m, text)
  {
    var swapped := Swapped(m.images(text), Placeholder);
    ReplacedWithoutMatches(settings, env, m.bare, m.mailto(swapped));
    ReplacedWithoutMatches(settings, env, m.bare, m.withOptions(swapped));
    ReplacedWithoutMatches(settings, env, m.bare, m.bare(swapped));
    ImagesRoundTrip(m.images(text), Placeholder);
  }

  /** A key whose second character no other key shares is replaced by its value. */
  lemma StrtrOnlyKey(key: string, value: string, rest: string, pairs: seq<(string, string)>)
    requires |key| >= 2 && (key, value) in pairs
    requires forall p :: p in pairs ==> p == (key, value) || (|p.0| >= 2 && p.0[1] != key[1])
    ensures Strtr(key + rest, pairs) == value + Strtr(rest, pairs)
  {
    var s := key + rest;
    assert s[..|key|] == key;
    assert s[|key|..] == rest;
    forall p | p in pairs && p.0 != "" && StartsWith(s, p.0) ensures p == (key, value) {
      assert |p.0| >= 2 ==> p.0[1] == s[..|p.0|][1] == s[1] == key[1];
    }
  }

  lemma FormPairs(url: string, text: string, email: string)
    ensures var pairs := [("%url", url), ("%displaytext", text), ("%email", email)];
      (forall p :: p in pairs ==> p.0 != "" && p.0[0] == '%')
      && (forall p :: p in pairs ==> p == ("%url", url) || (|p.0| >= 2 && p.0[1] != 'u'))
      && (forall p :: p in pairs ==> p == ("%email", email) || (|p.0| >= 2 && p.0[1] != 'e'))
      && (forall p :: p in pairs ==> p == ("%displaytext", text) || (|p.0| >= 2 && p.0[1] != 'd'))
  {
  }

  const DefaultFormPattern: string := "<a href=\"" + "%url" + "?goto=" + "%email" + "\">" + "%displaytext" + "</a>"

  /** The part of the default form pattern from `%email` on. */
  lemma FormPatternTail(url: string, text: string, email: string)
    ensures Strtr("%email" + ("\">" + ("%displaytext" + "</a>")), [("%url", url), ("%displaytext", text), ("%email", email)])
      == email + ("\">" + (text + "</a>"))
  {
    var pairs := [("%url", url), ("%displaytext", text), ("%email", email)];
    FormPairs(url, text, email);
    var r4 := "</a>";
    var r3 := "%displaytext" + r4;
    var r2 := "\">" + r3;
    calc {
      Strtr("%email" + r2, pairs);
      { StrtrOnlyKey("%email", email, r2, pairs); }
      email + Strtr(r2, pairs);
      { StrtrLiteralPrefix("\">", r3, pairs, '%'); }
      email + ("\">" + Strtr(r3, pairs));
      { StrtrOnlyKey("%displaytext", text, r4, pairs); }
      email + ("\">" + (text + Strtr(r4, pairs)));
      { assert r4 == r4 + ""; StrtrLiteralPrefix(r4, "", pairs, '%'); }
      email + ("\">" + (text + r4));
    }
  }

  /** The default form pattern yields a link to the form URL carrying the encoded address. */
  lemma DefaultFormPatternLink(url: string, text: string, email: string)
    ensures Strtr(DefaultFormPattern, [("%url", url), ("%displaytext", text), ("%email", email)])
      == "<a href=\"" + url + "?goto=" + email + "\">" + text + "</a>"
  {
    var pairs := [("%url", url), ("%displaytext", text), ("%email", email)];
    FormPairs(url, text, email);
    var r1 := "%email" + ("\">" + ("%displaytext" + "</a>"));
    var r0 := "?goto=" + r1;
    var s1 := "%url" + r0;
    assert DefaultFormPattern == "<a href=\"" + s1;
    calc {
      Strtr(DefaultFormPattern, pairs);
      { StrtrLiteralPrefix("<a href=\"", s1, pairs, '%'); }
      "<a href=\"" + Strtr(s1, pairs);
      { StrtrOnlyKey("%url", url, r0, pairs); }
      "<a href=\"" + (url + Strtr(r0, pairs));
      { StrtrLiteralPrefix("?goto=", r1, pairs, '%'); }
      "<a href=\"" + (url + ("?goto=" + Strtr(r1, pairs)));
      { FormPatternTail(url, text, email); }
      "<a href=\"" + (url + ("?goto=" + (email + ("\">" + (text + "</a>")))));
      "<a href=\"" + url + "?goto=" + email + "\">" + text + "</a>";
    }
  }

  /**
   * The with-options callback as written shows an empty header span in span mode;
   * with no headers it renders what the bare-address callback renders.
   */
  lemma WithOptionsHeaderFinding(settings: Settings, env: Env, bare: string -> seq<Piece<Captures>>,
                                 name: string, domain: string, options: string)
    requires !settings.useForm
    ensures var spans := AddressSpans(settings, env, name, domain);
      OutputText(settings, env, bare, name, domain, "", HeaderString(""), OptionVars(options))
        == "<span class=\"spamspan\">" + spans + "<span class=\"h\"> () </span>" + "</span>"
      && CallbackText(settings, env, bare, OptionCaptures(name, domain, options))
        == "<span class=\"spamspan\">" + spans + "</span>"
      && CallbackText(settings, env, bare, OptionCaptures(name, domain, options))
        == CallbackText(settings, env, bare, BareCaptures(name, domain))
  {
    var spans := AddressSpans(settings, env, name, domain);
    var open := "<span class=\"spamspan\">";
    assert ContentsSpan(env, bare, "") == "";
    assert ExtraSpan(env, OptionVars(options)) == "" && ExtraSpan(env, NoVars) == "";
    assert HeaderSpan(env, HeaderList([])) == "";
    assert open + spans + "" + "" + "" + "</span>" == open + spans + "</span>";
    var h := "<span class=\"h\"> () </span>";
    assert open + spans + h + "" + "" + "</span>" == open + spans + h + "</span>";
  }

  /** In form mode the headers do not matter, so the two with-options versions agree. */
  lemma WithOptionsFormModeAgrees(settings: Settings, env: Env, bare: string -> seq<Piece<Captures>>,
                                  name: string, domain: string, options: string)
    requires settings.useForm
    ensures OutputText(settings, env, bare, name, domain, "", HeaderString(""), OptionVars(options))
      == CallbackText(settings, env, bare, OptionCaptures(name, domain, options))
      == Strtr(settings.formPattern, [("%url", FormUrl(settings, env, OptionVars(options))),
                                      ("%displaytext", env.stripTags(if EmptyVar(OptionVars(options).customDisplaytext)
                                                                     then env.translate(settings.formDefaultDisplaytext)
                                                                     else OptionVars(options).customDisplaytext.value)),
                                      ("%email", env.encodeEmail(name + "@" + domain))])
  {
  }
}
