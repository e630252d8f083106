/** The text form the cache stores structured values in (the source uses `JSON.stringify` and
    `JSON.parse`). Only the round trip matters to the cache, so this module fixes one concrete
    text form and proves that parsing the stringified value gives the value back:

      list    ::= '[' field* ']'
      field   ::= '"' (escaped character)* '"'      -- '"' and '\' are preceded by '\'

    A project is stored as two fields and an action item as eight. */
module Serial {
  import opened Wrappers
  import opened Types

  // ---------------------------------------------------------------- quoted strings

  /** True of the characters that must be preceded by a backslash inside a field. */
  predicate NeedsEscape(c: char) {
    c == '"' || c == '\\'
  }

  /** The body of a field: `s` with every quote and backslash preceded by a backslash. */
  function Escape(s: string): (t: string)
  {
    if s == [] then []
    else (if NeedsEscape(s[0]) then ['\\', s[0]] else [s[0]]) + Escape(s[1..])
  }

  /** Reads a field body up to its unescaped closing quote; returns the unescaped body and
      the text after the quote, or None when the text ends before the closing quote. */
  function ReadBody(t: string): (r: Option<(string, string)>)
    ensures r.Some? ==> |r.value.1| < |t|
    decreases |t|
  {
    if t == [] then None
    else if t[0] == '"' then Some(([], t[1..]))
    else
      var width := if t[0] == '\\' then 2 else 1;
      if |t| < width then None
      else match ReadBody(t[width..])
        case None => None
        case Some(br) => Some(([t[width - 1]] + br.0, br.1))
  }

  lemma {:induction false} ReadBodyOfEscape(s: string, rest: string)
    ensures ReadBody(Escape(s) + "\"" + rest) == Some((s, rest))
    decreases |s|
  {
    var t := Escape(s) + "\"" + rest;
    if s == [] {
      assert t == "\"" + rest;
    } else {
      ReadBodyOfEscape(s[1..], rest);
      var head := if NeedsEscape(s[0]) then ['\\', s[0]] else [s[0]];
      assert t == head + (Escape(s[1..]) + "\"" + rest);
      assert t[|head|..] == Escape(s[1..]) + "\"" + rest;
      assert [s[0]] + s[1..] == s;
    }
  }

  // ---------------------------------------------------------------- field lists

  /** The fields written one after the other, each between quotes. */
  function EncodeFields(fs: seq<string>): string
  {
    if fs == [] then [] else "\"" + Escape(fs[0]) + "\"" + EncodeFields(fs[1..])
  }

  /** Reads quoted fields up to the closing bracket, which must end the text. */
  function ReadFields(t: string): Option<seq<string>>
    decreases |t|
  {
    if t == "]" then Some([])
    else if t != [] && t[0] == '"' then
      match ReadBody(t[1..])
      case None => None
      case Some(br) =>
        match ReadFields(br.1)
        case None => None
        case Some(fs) => Some([br.0] + fs)
    else None
  }

  lemma {:induction false} ReadFieldsOfEncode(fs: seq<string>)
    ensures ReadFields(EncodeFields(fs) + "]") == Some(fs)
    decreases |fs|
  {
    if fs != [] {
      var rest := EncodeFields(fs[1..]) + "]";
      var t := EncodeFields(fs) + "]";
      assert t == "\"" + (Escape(fs[0]) + "\"" + rest);
      assert t[1..] == Escape(fs[0]) + "\"" + rest;
      ReadBodyOfEscape(fs[0], rest);
      ReadFieldsOfEncode(fs[1..]);
      assert [fs[0]] + fs[1..] == fs;
    }
  }

  /** The stored text of a list of fields. It is never the empty string, which the cache
      getters read as "nothing stored". */
  function Stringify(fs: seq<string>): (text: string)
    ensures text != ""
  {
    "[" + EncodeFields(fs) + "]"
  }

  /** The fields of a stored text, or None when the text is not of the form above. */
  function Parse(text: string): Option<seq<string>>
  {
    if text != [] && text[0] == '[' then ReadFields(text[1..]) else None
  }

  lemma ParseStringify(fs: seq<string>)
    ensures Parse(Stringify(fs)) == Some(fs)
  {
    assert Stringify(fs)[1..] == EncodeFields(fs) + "]";
    ReadFieldsOfEncode(fs);
  }

  // ---------------------------------------------------------------- projects

  function ProjectsToFields(ps: seq<Project>): (fs: seq<string>)
    ensures |fs| == 2 * |ps|
  {
    if ps == [] then [] else [ps[0].id, ps[0].title] + ProjectsToFields(ps[1..])
  }

  function FieldsToProjects(fs: seq<string>): Option<seq<Project>>
    decreases |fs|
  {
    if fs == [] then Some([])
    else if |fs| < 2 then None
    else match FieldsToProjects(fs[2..])
      case None => None
      case Some(ps) => Some([Project(fs[0], fs[1])] + ps)
  }

  lemma {:induction false} FieldsToProjectsInverse(ps: seq<Project>)
    ensures FieldsToProjects(ProjectsToFields(ps)) == Some(ps)
    decreases |ps|
  {
    if ps != [] {
      var fs := ProjectsToFields(ps);
      assert fs[2..] == ProjectsToFields(ps[1..]);
      FieldsToProjectsInverse(ps[1..]);
      assert [ps[0]] + ps[1..] == ps;
    }
  }

  /** `JSON.stringify` of a project list. */
  function StringifyProjects(ps: seq<Project>): (text: string)
    ensures text != ""
  {
    Stringify(ProjectsToFields(ps))
  }

  /** `JSON.parse` of a stored project list; None stands for the exception the source throws
      on malformed text. */
  function ParseProjects(text: string): Option<seq<Project>>
  {
    match Parse(text)
    case None => None
    case Some(fs) => FieldsToProjects(fs)
  }

  lemma ProjectsRoundTrip(ps: seq<Project>)
    ensures StringifyProjects(ps) != "" && ParseProjects(StringifyProjects(ps)) == Some(ps)
  {
    ParseStringify(ProjectsToFields(ps));
    FieldsToProjectsInverse(ps);
  }

  // ---------------------------------------------------------------- action items

  /** The `doDate` field: a leading '-' for null, a leading '+' before a date. */
  function DateToField(d: Option<string>): string
  {
    match d
    case None => "-"
    case Some(s) => "+" + s
  }

  function FieldToDate(f: string): Option<Option<string>>
  {
    if f == "-" then Some(None)
    else if f != [] && f[0] == '+' then Some(Some(f[1..]))
    else None
  }

  function DoneToField(b: bool): string
  {
    if b then "true" else "false"
  }

  function FieldToDone(f: string): Option<bool>
  {
    if f == "true" then Some(true) else if f == "false" then Some(false) else None
  }

  function ItemToFields(x: ActionItem): (fs: seq<string>)
    ensures |fs| == 8
  {
    [x.id, x.title, DateToField(x.doDate), x.project, x.priority, x.priorityIcon,
     DoneToField(x.done), x.content]
  }

  /** The item stored in eight fields, or None when the date or done field is malformed. */
  function FieldsToItem(fs: seq<string>): Option<ActionItem>
    requires |fs| == 8
  {
    match (FieldToDate(fs[2]), FieldToDone(fs[6]))
    case (Some(d), Some(b)) => Some(ActionItem(fs[0], fs[1], d, fs[3], fs[4], fs[5], b, fs[7]))
    case _ => None
  }

  lemma FieldsToItemInverse(x: ActionItem)
    ensures FieldsToItem(ItemToFields(x)) == Some(x)
  {
    match x.doDate
    case None =>
    case Some(s) =>
      var f := "+" + s;
      assert f[0] == '+' && f != "-" && f[1..] == s;
      assert FieldToDate(f) == Some(Some(s));
  }

  function ItemsToFields(xs: seq<ActionItem>): (fs: seq<string>)
    ensures |fs| == 8 * |xs|
  {
    if xs == [] then [] else ItemToFields(xs[0]) + ItemsToFields(xs[1..])
  }

  function FieldsToItems(fs: seq<string>): Option<seq<ActionItem>>
    decreases |fs|
  {
    if fs == [] then Some([])
    else if |fs| < 8 then None
    else match (FieldsToItem(fs[..8]), FieldsToItems(fs[8..]))
      case (Some(x), Some(xs)) => Some([x] + xs)
      case _ => None
  }

  lemma {:induction false} FieldsToItemsInverse(xs: seq<ActionItem>)
    ensures FieldsToItems(ItemsToFields(xs)) == Some(xs)
    decreases |xs|
  {
    if xs != [] {
      var fs := ItemsToFields(xs);
      assert fs[..8] == ItemToFields(xs[0]);
      assert fs[8..] == ItemsToFields(xs[1..]);
      FieldsToItemInverse(xs[0]);
      FieldsToItemsInverse(xs[1..]);
      assert [xs[0]] + xs[1..] == xs;
    }
  }

  /** `JSON.stringify` of an action-item list. */
  function StringifyItems(xs: seq<ActionItem>): (text: string)
    ensures text != ""
  {
    Stringify(ItemsToFields(xs))
  }

  /** `JSON.parse` of a stored action-item list; None stands for the exception. */
  function ParseItems(text: string): Option<seq<ActionItem>>
  {
    match Parse(text)
    case None => None
    case Some(fs) => FieldsToItems(fs)
  }

  lemma ItemsRoundTrip(xs: seq<ActionItem>)
    ensures StringifyItems(xs) != "" && ParseItems(StringifyItems(xs)) == Some(xs)
  {
    ParseStringify(ItemsToFields(xs));
    FieldsToItemsInverse(xs);
  }
}
