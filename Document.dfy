/**
 * `Document`: what the synchronisation knows about one AsciiDoc file, filled in through
 * fluent setters that each set one field and hand back the document.
 */
module Documents {
  import opened JavaText

  /** The document's fields as one value. */
  datatype DocumentData = DocumentData(
    inputFilename: string,
    category: string,
    section: string,
    title: string,
    oldTitle: string,
    position: int,
    draft: bool,
    promoted: bool,
    contents: string,
    tags: seq<string>)

  /** The fields of a document nobody has set anything on. */
  const FreshDocument := DocumentData("", "", "", "", "", 0, false, false, "", [])

  class Document {
    var inputFilename: string
    var category: string
    var section: string
    var title: string
    var oldTitle: string
    var position: int
    var draft: bool
    var promoted: bool
    var contents: string
    var tags: seq<string>

    function View(): DocumentData
      reads this
    {
      DocumentData(inputFilename, category, section, title, oldTitle, position, draft, promoted, contents, tags)
    }

    /** `new Document()`: position 0, neither draft nor promoted, no text. */
    constructor ()
      ensures View() == FreshDocument
    {
      inputFilename, category, section, title, oldTitle := "", "", "", "", "";
      position, draft, promoted, contents, tags := 0, false, false, "", [];
    }

    method SetInputFilename(v: string) returns (self: Document)
      modifies this
      ensures View() == old(View()).(inputFilename := v) && self == this
    {
      inputFilename := v;
      self := this;
    }

    method SetCategory(v: string) returns (self: Document)
      modifies this
      ensures View() == old(View()).(category := v) && self == this
    {
      category := v;
      self := this;
    }

    method SetSection(v: string) returns (self: Document)
      modifies this
      ensures View() == old(View()).(section := v) && self == this
    {
      section := v;
      self := this;
    }

    method SetTitle(v: string) returns (self: Document)
      modifies this
      ensures View() == old(View()).(title := v) && self == this
    {
      title := v;
      self := this;
    }

    method SetOldTitle(v: string) returns (self: Document)
      modifies this
      ensures View() == old(View()).(oldTitle := v) && self == this
    {
      oldTitle := v;
      self := this;
    }

    method SetPosition(v: int) returns (self: Document)
      modifies this
      ensures View() == old(View()).(position := v) && self == this
    {
      position := v;
      self := this;
    }

    method SetDraft(v: bool) returns (self: Document)
      modifies this
      ensures View() == old(View()).(draft := v) && self == this
    {
      draft := v;
      self := this;
    }

    method SetPromoted(v: bool) returns (self: Document)
      modifies this
      ensures View() == old(View()).(promoted := v) && self == this
    {
      promoted := v;
      self := this;
    }

    method SetContents(v: string) returns (self: Document)
      modifies this
      ensures View() == old(View()).(contents := v) && self == this
    {
      contents := v;
      self := this;
    }

    method SetTags(v: seq<string>) returns (self: Document)
      modifies this
      ensures View() == old(View()).(tags := v) && self == this
    {
      tags := v;
      self := this;
    }

    /** `canPublish()`: category, section and title each hold a character that is not
        white space. */
    function CanPublish(): (b: bool)
      reads this
      ensures b <==> (exists i | 0 <= i < |category| :: !IsWhitespace(category[i]))
                     && (exists i | 0 <= i < |section| :: !IsWhitespace(section[i]))
                     && (exists i | 0 <= i < |title| :: !IsWhitespace(title[i]))
    {
      !IsBlank(category) && !IsBlank(section) && !IsBlank(title)
    }

    /** `toString()`: `title (category, section) inputFilename`. */
    function ToString(): (r: string)
      reads this
      ensures |r| == |title| + |category| + |section| + |inputFilename| + 6
      ensures r[..|title|] == title
      ensures r[|title|..|title| + 2] == " ("
      ensures r[|title| + 2..|title| + 2 + |category|] == category
      ensures r[|title| + 2 + |category|..|title| + 4 + |category|] == ", "
      ensures r[|title| + 4 + |category|..|r| - |inputFilename| - 2] == section
      ensures r[|r| - |inputFilename| - 2..|r| - |inputFilename|] == ") "
      ensures r[|r| - |inputFilename|..] == inputFilename
    {
      title + " (" + category + ", " + section + ") " + inputFilename
    }
  }
}
