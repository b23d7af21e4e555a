/**
 * The two block macros that emit raw HTML into a `pass` block: `zvideo::id[service, …]`
 * (`VideoBlockMacroProcessor`) builds an embedded player, `note::text[type=…]`
 * (`NoteBlockMacroProcessor`) a styled paragraph.  Macro attributes are given as a map
 * from name to the text of the value; creating the block itself is not modelled, only
 * the content handed to it.
 */
module BlockMacros {
  import opened Wrappers
  import opened JavaText

  // ---------------------------------------------------------------------------
  // Reading quoted attribute values back

  /** The text before the first `"`, or all of `s` when there is none. */
  function UpToQuote(s: string): (v: string)
    ensures '"' !in v && |v| <= |s| && v == s[..|v|]
    ensures |v| < |s| ==> s[|v|] == '"'
  {
    if s == [] || s[0] == '"' then [] else [s[0]] + UpToQuote(s[1..])
  }

  lemma {:induction false} UpToQuoteOf(v: string, rest: string)
    requires '"' !in v
    ensures UpToQuote(v + "\"" + rest) == v
  {
    if v != [] {
      assert (v + "\"" + rest)[1..] == v[1..] + "\"" + rest;
      UpToQuoteOf(v[1..], rest);
    }
  }

  /** `v` followed by a closing `"` and then `rest`, read back. */
  function SplitAtQuote(s: string): Option<(string, string)> {
    var v := UpToQuote(s);
    if |v| == |s| then None else Some((v, s[|v| + 1..]))
  }

  lemma SplitAtQuoteOf(v: string, rest: string)
    requires '"' !in v
    ensures SplitAtQuote(v + "\"" + rest) == Some((v, rest))
  {
    var s := v + "\"" + rest;
    UpToQuoteOf(v, rest);
    assert s[|v| + 1..] == rest;
  }

  // ---------------------------------------------------------------------------
  // `zvideo::`

  const VIMEO_PLAYER := "https://player.vimeo.com/video/"
  const YOUTUBE_EMBED := "https://www.youtube.com/embed/"
  const YOUTUBE_OPTIONS := "?rel=0"

  datatype Service = Vimeo | YouTube

  /** The service named by the first positional attribute, compared ignoring case. */
  function ServiceOf(service: string): Option<Service> {
    if EqualsIgnoreCase(service, "vimeo") then Some(Vimeo)
    else if EqualsIgnoreCase(service, "youtube") then Some(YouTube)
    else None
  }

  /** The `src` of the player: a Vimeo player, a YouTube embed without related videos, or
      empty for any other service. */
  function EmbedLink(service: string, videoId: string): string {
    match ServiceOf(service)
    case Some(Vimeo) => VIMEO_PLAYER + videoId
    case Some(YouTube) => YOUTUBE_EMBED + videoId + YOUTUBE_OPTIONS
    case None => ""
  }

  /** Which service and video a link plays; the inverse of `EmbedLink`. */
  function ParseEmbedLink(link: string): Option<(Service, string)> {
    if StartsWith(link, VIMEO_PLAYER) then Some((Vimeo, link[|VIMEO_PLAYER|..]))
    else if StartsWith(link, YOUTUBE_EMBED) && |YOUTUBE_EMBED| + |YOUTUBE_OPTIONS| <= |link|
            && EndsWith(link, YOUTUBE_OPTIONS)
    then Some((YouTube, link[|YOUTUBE_EMBED|..|link| - |YOUTUBE_OPTIONS|]))
    else None
  }

  /** The link names the service and the video it was built for, and is empty exactly
      when the service is neither Vimeo nor YouTube. */
  lemma EmbedLinkRoundTrip(service: string, videoId: string)
    ensures ParseEmbedLink(EmbedLink(service, videoId)) ==
              match ServiceOf(service)
              case Some(k) => Some((k, videoId))
              case None => None
    ensures EmbedLink(service, videoId) == [] <==> ServiceOf(service).None?
  {
    var link := EmbedLink(service, videoId);
    match ServiceOf(service)
    case Some(Vimeo) =>
      assert link[..|VIMEO_PLAYER|] == VIMEO_PLAYER;
    case Some(YouTube) =>
      assert link[..|YOUTUBE_EMBED|] == YOUTUBE_EMBED;
      assert link[|link| - |YOUTUBE_OPTIONS|..] == YOUTUBE_OPTIONS;
      assert link[|YOUTUBE_EMBED|..|link| - |YOUTUBE_OPTIONS|] == videoId;
      assert link[8] != VIMEO_PLAYER[8];
    case None =>
  }

  /** ` width="w" ` (or ` height="h" `) when the value is not blank, nothing otherwise. */
  function SizeAttribute(name: string, value: string): string {
    if !IsBlank(value) then " " + name + "=\"" + value + "\" " else ""
  }

  const VIDEO_OPEN := "<div class=\"videoblock\">\n" + "  <div class=\"content\">\n" + "    <iframe src=\""
  const VIDEO_CLOSE := "frameborder=\"0\" " + "allowfullscreen=\"allowfullscreen\">" + "</iframe>\n" + "  </div>\n</div>\n"

  /** `process` of `VideoBlockMacroProcessor`: the player markup, or `None` for the
      NullPointerException of a macro without a service attribute.  Absent `width` and
      `height` read as empty. */
  function VideoBlock(videoId: string, attributes: map<string, string>): Option<string> {
    if "1" !in attributes then None
    else
      var w := if "width" in attributes then attributes["width"] else "";
      var h := if "height" in attributes then attributes["height"] else "";
      Some(VideoMarkup(EmbedLink(attributes["1"], videoId), w, h))
  }

  /** The fixed player template around the link and the optional sizes. */
  function VideoMarkup(link: string, w: string, h: string): string {
    VIDEO_OPEN + (link + "\"" + (SizeAttribute("width", w) + (SizeAttribute("height", h) + VIDEO_CLOSE)))
  }

  /** The values of an emitted player, as a browser would read its `iframe`. */
  datatype Frame = Frame(src: string, width: string, height: string)

  /** An optional ` name="value" ` at the front of `s`: the value (empty when absent)
      and what follows. */
  function ReadSize(name: string, s: string): Option<(string, string)> {
    var key := " " + name + "=\"";
    if !StartsWith(s, key) then Some(("", s))
    else
      match SplitAtQuote(s[|key|..])
      case None => None
      case Some((v, rest)) => if StartsWith(rest, " ") then Some((v, rest[1..])) else None
  }

  lemma ReadSizeOf(name: string, value: string, rest: string)
    requires '"' !in value && !StartsWith(rest, " " + name + "=\"")
    ensures ReadSize(name, SizeAttribute(name, value) + rest) ==
              Some((if IsBlank(value) then "" else value, rest))
  {
    if !IsBlank(value) {
      var key := " " + name + "=\"";
      var s := SizeAttribute(name, value) + rest;
      assert s == key + (value + "\"" + (" " + rest));
      assert s[..|key|] == key;
      assert s[|key|..] == value + "\"" + (" " + rest);
      SplitAtQuoteOf(value, " " + rest);
      assert (" " + rest)[1..] == rest;
    } else {
      assert SizeAttribute(name, value) + rest == rest;
    }
  }

  /** Reads the player markup back; the inverse of `VideoBlock`. */
  function ReadVideo(content: string): Option<Frame> {
    if !StartsWith(content, VIDEO_OPEN) then None
    else
      match SplitAtQuote(content[|VIDEO_OPEN|..])
      case None => None
      case Some((src, r1)) =>
        match ReadSize("width", r1)
        case None => None
        case Some((w, r2)) =>
          match ReadSize("height", r2)
          case None => None
          case Some((h, r3)) => if r3 == VIDEO_CLOSE then Some(Frame(src, w, h)) else None
  }

  /** What follows the `src` value: the optional width, the optional height and the
      fixed tail, each read in turn. */
  lemma SizesRead(w: string, h: string)
    requires '"' !in w && '"' !in h
    ensures var hTail := SizeAttribute("height", h) + VIDEO_CLOSE;
            ReadSize("height", hTail) == Some((if IsBlank(h) then "" else h, VIDEO_CLOSE))
            && ReadSize("width", SizeAttribute("width", w) + hTail) == Some((if IsBlank(w) then "" else w, hTail))
  {
    var hTail := SizeAttribute("height", h) + VIDEO_CLOSE;
    assert VIDEO_CLOSE[0] == 'f';
    ReadSizeOf("height", h, VIDEO_CLOSE);
    if !IsBlank(h) {
      assert hTail[1] == 'h';
    }
    ReadSizeOf("width", w, hTail);
  }

  /** `a + b` starts with `a`, and `b` follows it. */
  lemma PrefixThenRest(a: string, b: string)
    ensures StartsWith(a + b, a) && (a + b)[|a|..] == b
  {
    assert (a + b)[..|a|] == a;
  }

  /** One successful pass of `ReadVideo`, step by step. */
  lemma ReadVideoSteps(content: string, src: string, r1: string, w: string, r2: string, h: string)
    requires StartsWith(content, VIDEO_OPEN)
    requires SplitAtQuote(content[|VIDEO_OPEN|..]) == Some((src, r1))
    requires ReadSize("width", r1) == Some((w, r2))
    requires ReadSize("height", r2) == Some((h, VIDEO_CLOSE))
    ensures ReadVideo(content) == Some(Frame(src, w, h))
  {
  }

  /** Markup built from a link and two sizes without `"` reads back as those values,
      a blank size as absent. */
  lemma ReadVideoOf(link: string, w: string, h: string)
    requires '"' !in link && '"' !in w && '"' !in h
    ensures ReadVideo(VideoMarkup(link, w, h))
              == Some(Frame(link, if IsBlank(w) then "" else w, if IsBlank(h) then "" else h))
  {
    var hTail := SizeAttribute("height", h) + VIDEO_CLOSE;
    var r1 := SizeAttribute("width", w) + hTail;
    var body := link + "\"" + r1;
    PrefixThenRest(VIDEO_OPEN, body);
    SplitAtQuoteOf(link, r1);
    SizesRead(w, h);
    ReadVideoSteps(VIDEO_OPEN + body, link, r1, if IsBlank(w) then "" else w, hTail, if IsBlank(h) then "" else h);
  }

  /** The markup carries the player link and the non-blank width and height, each read
      back unchanged when it holds no `"`. */
  lemma VideoBlockRoundTrip(videoId: string, attributes: map<string, string>)
    requires "1" in attributes && '"' !in videoId
    requires "width" in attributes ==> '"' !in attributes["width"]
    requires "height" in attributes ==> '"' !in attributes["height"]
    ensures VideoBlock(videoId, attributes).Some?
    ensures var w := if "width" in attributes then attributes["width"] else "";
            var h := if "height" in attributes then attributes["height"] else "";
            ReadVideo(VideoBlock(videoId, attributes).value) ==
              Some(Frame(EmbedLink(attributes["1"], videoId),
                         if IsBlank(w) then "" else w, if IsBlank(h) then "" else h))
  {
    var w := if "width" in attributes then attributes["width"] else "";
    var h := if "height" in attributes then attributes["height"] else "";
    LinkUnquoted(attributes["1"], videoId);
    ReadVideoOf(EmbedLink(attributes["1"], videoId), w, h);
  }

  /** A link holds a `"` only when the video id does. */
  lemma LinkUnquoted(service: string, videoId: string)
    requires '"' !in videoId
    ensures '"' !in EmbedLink(service, videoId)
  {
    assert '"' !in VIMEO_PLAYER && '"' !in YOUTUBE_EMBED && '"' !in YOUTUBE_OPTIONS;
  }

  // ---------------------------------------------------------------------------
  // `note::`

  const NOTE_OPEN := "<div class=\"paragraph\">\n" + "  <div class=\"content note "
  const NOTE_CLOSE := "  </div>\n</div>\n"

  /** The `type` attribute, empty when the macro has none. */
  function NoteStyle(attributes: map<string, string>): string {
    if "type" in attributes then attributes["type"] else ""
  }

  /** `process` of `NoteBlockMacroProcessor`: the text of the note, unescaped, inside a
      paragraph whose class is `content note ` followed by the style when it is not
      blank. */
  function NoteBlock(noteContent: string, attributes: map<string, string>): string {
    var style := NoteStyle(attributes);
    NOTE_OPEN + (if !IsBlank(style) then style else "") + "\">\n" + noteContent + NOTE_CLOSE
  }

  /** The extra class and the text of a note, read back from its markup; the inverse of
      `NoteBlock`. */
  function ReadNote(content: string): Option<(string, string)> {
    if !StartsWith(content, NOTE_OPEN) then None
    else
      match SplitAtQuote(content[|NOTE_OPEN|..])
      case None => None
      case Some((style, rest)) =>
        if StartsWith(rest, ">\n") && |rest| >= 2 + |NOTE_CLOSE| && EndsWith(rest, NOTE_CLOSE)
        then Some((style, rest[2..|rest| - |NOTE_CLOSE|]))
        else None
  }

  /** The note text comes back verbatim, and the class carries the style exactly when
      it is not blank (so a missing or blank `type` leaves the class `content note `). */
  lemma NoteBlockRoundTrip(noteContent: string, attributes: map<string, string>)
    requires '"' !in NoteStyle(attributes)
    ensures var style := NoteStyle(attributes);
            ReadNote(NoteBlock(noteContent, attributes)) ==
              Some((if IsBlank(style) then "" else style, noteContent))
  {
    var style := NoteStyle(attributes);
    var cls := if !IsBlank(style) then style else "";
    var rest := ">\n" + noteContent + NOTE_CLOSE;
    var content := NOTE_OPEN + (cls + "\"" + rest);
    assert NoteBlock(noteContent, attributes) == content;
    assert content[..|NOTE_OPEN|] == NOTE_OPEN;
    assert content[|NOTE_OPEN|..] == cls + "\"" + rest;
    SplitAtQuoteOf(cls, rest);
    assert rest[..2] == ">\n";
    assert rest[|rest| - |NOTE_CLOSE|..] == NOTE_CLOSE;
    assert rest[2..|rest| - |NOTE_CLOSE|] == noteContent;
  }
}
