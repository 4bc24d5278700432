/** `snippetToTextForEmbedding`: the fixed-format text that is handed to the
    embedding model, and a reader that takes such a text apart again. */
module EmbeddingText {
  import opened Wrappers

  /** `Array.prototype.join`: the parts with `sep` between neighbours. */
  function Join(parts: seq<string>, sep: string): string
  {
    if |parts| == 0 then ""
    else if |parts| == 1 then parts[0]
    else parts[0] + sep + Join(parts[1..], sep)
  }

  /** `snippet.description || ''`. */
  function DescriptionText(description: Option<string>): string
  {
    if description.Some? then description.value else ""
  }

  /** `Array.isArray(snippet.tags) ? snippet.tags.join(', ') : ''`. */
  function TagsText(tags: Option<seq<string>>): string
  {
    if tags.Some? then Join(tags.value, ", ") else ""
  }

  /** The canonical text of a snippet's five content fields. A missing or
      empty title, language or code renders as the empty string, as
      `x || ''` does. */
  function Render(title: string, language: string, description: Option<string>,
                  tags: Option<seq<string>>, code: string): string
  {
    "Title: " + title + "\nLanguage: " + language + "\nDescription: " + DescriptionText(description)
      + "\nTags: " + TagsText(tags) + "\nCode:\n" + code
  }

  /** The code is the last section: the text of a record is the text of the
      same record with no code, followed by the code. */
  lemma RenderCode(title: string, language: string, description: Option<string>,
                   tags: Option<seq<string>>, code: string)
    ensures Render(title, language, description, tags, code)
         == Render(title, language, description, tags, "") + code
  {
  }

  /** The five sections of a rendered text, tags still joined. */
  datatype Sections = Sections(title: string, language: string, description: string,
                               tags: string, code: string)

  /** The text up to the first line break, and the text after it. */
  function SplitLine(s: string): (r: Option<(string, string)>)
    ensures r.Some? ==> s == r.value.0 + "\n" + r.value.1 && '\n' !in r.value.0
    ensures r.None? <==> '\n' !in s
  {
    if |s| == 0 then None
    else if s[0] == '\n' then Some(("", s[1..]))
    else
      match SplitLine(s[1..])
      case None => None
      case Some(p) => Some(([s[0]] + p.0, p.1))
  }

  /** The part of `line` after `prefix`, if `line` starts with it. */
  function After(prefix: string, line: string): (r: Option<string>)
    ensures r.Some? <==> prefix <= line
    ensures r.Some? ==> line == prefix + r.value
  {
    if prefix <= line then Some(line[|prefix|..]) else None
  }

  /** The value of a line that starts with `caption`, and the text after
      that line. */
  function ReadCaptioned(caption: string, text: string): Option<(string, string)>
  {
    match SplitLine(text)
    case None => None
    case Some(line) =>
      match After(caption, line.0)
      case None => None
      case Some(v) => Some((v, line.1))
  }

  /** Reads a text laid out as `Render` lays it out: four captioned lines, a
      line `Code:`, then the code. */
  function Read(text: string): Option<Sections>
  {
    match ReadCaptioned("Title: ", text)
    case None => None
    case Some(t) =>
      match ReadCaptioned("Language: ", t.1)
      case None => None
      case Some(l) =>
        match ReadCaptioned("Description: ", l.1)
        case None => None
        case Some(d) =>
          match ReadCaptioned("Tags: ", d.1)
          case None => None
          case Some(g) =>
            match ReadCaptioned("Code:", g.1)
            case Some(("", code)) => Some(Sections(t.0, l.0, d.0, g.0, code))
            case _ => None
  }

  /** Splitting `a + "\n" + b` at its first line break gives back `a` and `b`
      when `a` has no line break of its own. */
  lemma {:induction false} SplitLineJoined(a: string, b: string)
    requires '\n' !in a
    ensures SplitLine(a + "\n" + b) == Some((a, b))
  {
    if |a| == 0 {
      assert a + "\n" + b == ['\n'] + b;
    } else {
      assert (a + "\n" + b)[1..] == a[1..] + "\n" + b;
      SplitLineJoined(a[1..], b);
      assert [a[0]] + a[1..] == a;
    }
  }

  lemma ReadCaptionedLine(caption: string, v: string, rest: string)
    requires '\n' !in caption && '\n' !in v
    ensures ReadCaptioned(caption, caption + v + "\n" + rest) == Some((v, rest))
  {
    SplitLineJoined(caption + v, rest);
    assert After(caption, caption + v) == Some(v);
  }

  /** Joining tags that have no line break gives text without one, as long as
      the separator has none either. */
  lemma {:induction false} JoinNoLineBreak(parts: seq<string>, sep: string)
    requires '\n' !in sep
    requires forall i :: 0 <= i < |parts| ==> '\n' !in parts[i]
    ensures '\n' !in Join(parts, sep)
  {
    if |parts| > 1 {
      JoinNoLineBreak(parts[1..], sep);
    }
  }

  /** Concatenation regrouped, with the captions left abstract. */
  lemma Regroup(t0: string, l0: string, d0: string, g0: string, c0: string,
                title: string, language: string, d: string, g: string, code: string)
    ensures t0 + title + ("\n" + l0) + language + ("\n" + d0) + d + ("\n" + g0) + g + ("\n" + c0 + "\n") + code
         == t0 + title + "\n" + (l0 + language + "\n" + (d0 + d + "\n" + (g0 + g + "\n" + (c0 + "\n" + code))))
  {
  }

  /** `Render` regrouped as one captioned line followed by the rest. */
  lemma RenderLines(title: string, language: string, d: string, g: string, code: string)
    ensures "Title: " + title + "\nLanguage: " + language + "\nDescription: " + d
              + "\nTags: " + g + "\nCode:\n" + code
         == "Title: " + title + "\n" + ("Language: " + language + "\n" +
              ("Description: " + d + "\n" + ("Tags: " + g + "\n" + ("Code:" + "" + "\n" + code))))
  {
    assert "\nLanguage: " == "\n" + "Language: ";
    assert "\nDescription: " == "\n" + "Description: ";
    assert "\nTags: " == "\n" + "Tags: ";
    assert "\nCode:\n" == "\n" + "Code:" + "\n";
    assert "Code:" + "" == "Code:";
    Regroup("Title: ", "Language: ", "Description: ", "Tags: ", "Code:", title, language, d, g, code);
  }

  /** Reading the regrouped text line by line. */
  lemma ReadLines(title: string, language: string, d: string, g: string, code: string)
    requires '\n' !in title && '\n' !in language && '\n' !in d && '\n' !in g
    ensures Read("Title: " + title + "\n" + ("Language: " + language + "\n" +
              ("Description: " + d + "\n" + ("Tags: " + g + "\n" + ("Code:" + "" + "\n" + code)))))
         == Some(Sections(title, language, d, g, code))
  {
    var r4 := "Code:" + "" + "\n" + code;
    var r3 := "Tags: " + g + "\n" + r4;
    var r2 := "Description: " + d + "\n" + r3;
    var r1 := "Language: " + language + "\n" + r2;
    ReadCaptionedLine("Title: ", title, r1);
    ReadCaptionedLine("Language: ", language, r2);
    ReadCaptionedLine("Description: ", d, r3);
    ReadCaptionedLine("Tags: ", g, r4);
    ReadCaptionedLine("Code:", "", code);
  }

  /** Round trip: when title, language, description and tags have no line
      break, the rendered text reads back into exactly those sections, the
      code coming back whole (line breaks and all). So the layout keeps every
      field under its own caption. */
  lemma RenderRead(title: string, language: string, description: Option<string>,
                   tags: Option<seq<string>>, code: string)
    requires '\n' !in title && '\n' !in language && '\n' !in DescriptionText(description)
    requires tags.Some? ==> forall i :: 0 <= i < |tags.value| ==> '\n' !in tags.value[i]
    ensures Read(Render(title, language, description, tags, code))
         == Some(Sections(title, language, DescriptionText(description), TagsText(tags), code))
  {
    if tags.Some? {
      JoinNoLineBreak(tags.value, ", ");
    }
    RenderLines(title, language, DescriptionText(description), TagsText(tags), code);
    ReadLines(title, language, DescriptionText(description), TagsText(tags), code);
  }

  /** The text depends on the description only through its rendering: a null
      description and an empty one give the same text. */
  lemma NullAndEmptyDescriptionAgree(title: string, language: string,
                                     tags: Option<seq<string>>, code: string)
    ensures Render(title, language, None, tags, code) == Render(title, language, Some(""), tags, code)
  {
  }
}
