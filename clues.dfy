/** Clue-file resolution (`load_clue_data`). The clue tree is given as a map
    from a directory name under the clues directory to its listing; a JSON
    decoder `parse` and Python's `str()` of a decoded object, `showObject`,
    are parameters, since both are library code outside the model. */
module ClueLookup {
  import opened Wrappers
  import opened Text
  import opened JsonValue

  /** One directory entry, in listing order: its name, whether it is a regular
      file, and the text a UTF-8 read of it gives (`None` if reading fails). */
  datatype Entry = Entry(name: string, isFile: bool, content: Option<string>)

  /** A missing key is a path that does not exist; `None` is a path that exists
      but cannot be listed (not a directory, no permission). */
  type ClueTree = map<string, Option<seq<Entry>>>

  /** The two spellings of a day's directory, tried in this order. */
  function DayFormats(day: int): seq<string> {
    ["day" + IntToDecimal(day), "day " + IntToDecimal(day)]
  }

  /** The two spellings differ, and different days never share a directory. */
  lemma DayFormatsDistinct(day: int, other: int)
    ensures DayFormats(day)[0] != DayFormats(day)[1]
    ensures day != other ==> DayFormats(day)[0] != DayFormats(other)[0]
    ensures day != other ==> DayFormats(day)[1] != DayFormats(other)[1]
    ensures DayFormats(day)[0] != DayFormats(other)[1]
  {
    var d, o := IntToDecimal(day), IntToDecimal(other);
    assert DayFormats(day)[0][3..] == d && DayFormats(other)[0][3..] == o;
    assert DayFormats(day)[1][4..] == d && DayFormats(other)[1][4..] == o;
    assert DayFormats(day)[0][3] != ' ' by {
      assert d[0] == '-' || '0' <= d[0] <= '9';
    }
    if day != other && d == o {
      IntToDecimalInjective(day, other);
    }
  }

  /** A file name that can hold a clue about `suspect`: case-insensitively it
      starts with the suspect's name and ends in `.json` or `.txt`. */
  predicate IsClueFileName(name: string, suspect: string) {
    var lower := Lower(name);
    StartsWith(lower, Lower(suspect)) && (EndsWith(lower, ".json") || EndsWith(lower, ".txt"))
  }

  predicate IsClueFile(e: Entry, suspect: string) {
    e.isFile && IsClueFileName(e.name, suspect)
  }

  /** The regular files of a listing whose names match, in listing order. */
  function MatchingFiles(entries: seq<Entry>, suspect: string): (r: seq<Entry>)
    ensures |r| <= |entries|
    ensures forall k :: 0 <= k < |r| ==> r[k] in entries && IsClueFile(r[k], suspect)
    ensures forall k :: 0 <= k < |entries| && IsClueFile(entries[k], suspect) ==> entries[k] in r
  {
    if entries == [] then []
    else if IsClueFile(entries[0], suspect) then [entries[0]] + MatchingFiles(entries[1..], suspect)
    else MatchingFiles(entries[1..], suspect)
  }

  /** The match used is the earliest matching entry in listing order. */
  lemma {:induction false} MatchingHead(entries: seq<Entry>, suspect: string, i: nat)
    requires i < |entries| && IsClueFile(entries[i], suspect)
    requires forall j :: 0 <= j < i ==> !IsClueFile(entries[j], suspect)
    ensures MatchingFiles(entries, suspect) != []
    ensures MatchingFiles(entries, suspect)[0] == entries[i]
  {
    if i > 0 {
      MatchingHead(entries[1..], suspect, i - 1);
    }
  }

  /** The first matching entry and its position, when there is one. */
  lemma {:induction false} MatchingHeadIndex(entries: seq<Entry>, suspect: string) returns (i: nat)
    requires MatchingFiles(entries, suspect) != []
    ensures i < |entries| && IsClueFile(entries[i], suspect)
    ensures forall j :: 0 <= j < i ==> !IsClueFile(entries[j], suspect)
    ensures MatchingFiles(entries, suspect)[0] == entries[i]
  {
    if IsClueFile(entries[0], suspect) {
      i := 0;
    } else {
      var k := MatchingHeadIndex(entries[1..], suspect);
      i := k + 1;
    }
  }

  /** `"🧩 Clue about <Name>: "`, the start of every clue found. */
  function ClueHeader(suspect: string): string {
    "\U{1F9E9} Clue about " + CapitalizeFirst(suspect) + ": "
  }

  /** The fallback when no clue could be loaded. */
  function NoClues(suspect: string): string {
    "No new clues for " + CapitalizeFirst(suspect) + " today."
  }

  const NoJsonClueText: string := "No clue text found in JSON"

  /** The fields of a JSON clue file looked at, in this order. */
  const ClueKeys: seq<string> := ["clue", "text", "content"]

  /** How a value appears inside the f-string: a string as it is, any other
      value as `str()` prints it. */
  function Shown(j: Json, showObject: map<string, Json> -> string): string {
    match j
    case JString(s) => s
    case JOther(_, text) => text
    case JObject(fields) => showObject(fields)
  }

  /** The clue text of a decoded JSON clue file. */
  function JsonClueText(fields: map<string, Json>, showObject: map<string, Json> -> string): string {
    match FirstTruthy(fields, ClueKeys)
    case Some(v) => Shown(v, showObject)
    case None => NoJsonClueText
  }

  /** The clue a matched file gives, or `None` when reading or decoding it
      raises (the error is caught and the search moves on). Using `.get` on
      decoded JSON that is not an object raises too. */
  function FileClue(file: Entry, suspect: string, parse: string -> Option<Json>,
                    showObject: map<string, Json> -> string): (r: Option<string>)
    ensures r.Some? <==> file.content.Some? && (EndsWith(Lower(file.name), ".json") ==>
                           parse(file.content.value).Some? && parse(file.content.value).value.JObject?)
    ensures r.Some? ==> StartsWith(r.value, ClueHeader(suspect))
  {
    match file.content
    case None => None
    case Some(text) =>
      if EndsWith(Lower(file.name), ".json") then
        match parse(text)
        case Some(JObject(fields)) => Some(ClueHeader(suspect) + JsonClueText(fields, showObject))
        case _ => None
      else
        Some(ClueHeader(suspect) + Strip(text))
  }

  /** What one directory spelling yields: nothing if it is missing, cannot be
      listed, has no matching file, or its first match cannot be read. */
  function FromDirectory(tree: ClueTree, format: string, suspect: string,
                         parse: string -> Option<Json>, showObject: map<string, Json> -> string): (r: Option<string>)
    ensures r.Some? ==> format in tree && tree[format].Some? && MatchingFiles(tree[format].value, suspect) != []
    ensures r.Some? ==> StartsWith(r.value, ClueHeader(suspect))
  {
    if format !in tree || tree[format].None? then None
    else
      var matching := MatchingFiles(tree[format].value, suspect);
      if matching == [] then None else FileClue(matching[0], suspect, parse, showObject)
  }

  /** The first clue the spellings in `formats` yield, in order, or the fallback. */
  function FirstClue(tree: ClueTree, formats: seq<string>, suspect: string,
                     parse: string -> Option<Json>, showObject: map<string, Json> -> string): string
  {
    if formats == [] then NoClues(suspect)
    else match FromDirectory(tree, formats[0], suspect, parse, showObject)
      case Some(clue) => clue
      case None => FirstClue(tree, formats[1..], suspect, parse, showObject)
  }

  /** The result `load_clue_data` is specified to return. */
  function ClueFor(tree: ClueTree, day: int, suspect: string,
                   parse: string -> Option<Json>, showObject: map<string, Json> -> string): string
  {
    FirstClue(tree, DayFormats(day), suspect, parse, showObject)
  }

  /** `load_clue_data`: the loop over the day spellings, with `continue` for a
      missing directory and an early return for the first clue loaded. */
  method LoadClueData(tree: ClueTree, day: int, suspect: string,
                      parse: string -> Option<Json>, showObject: map<string, Json> -> string)
    returns (clue: string)
    ensures clue == ClueFor(tree, day, suspect, parse, showObject)
  {
    var formats := DayFormats(day);
    for i := 0 to |formats|
      invariant FirstClue(tree, formats, suspect, parse, showObject) == FirstClue(tree, formats[i..], suspect, parse, showObject)
    {
      var format := formats[i];
      assert formats[i..][1..] == formats[i + 1..];
      if format !in tree {
        continue;
      }
      var listing := tree[format];
      if listing.None? {
        continue;
      }
      var matching := MatchingFiles(listing.value, suspect);
      if matching != [] {
        var file := matching[0];
        if EndsWith(Lower(file.name), ".json") {
          if file.content.Some? {
            var data := parse(file.content.value);
            if data.Some? && data.value.JObject? {
              var clueText := JsonClueText(data.value.fields, showObject);
              return ClueHeader(suspect) + clueText;
            }
          }
        } else if file.content.Some? {
          var text := Strip(file.content.value);
          return ClueHeader(suspect) + text;
        }
      }
    }
    clue := NoClues(suspect);
  }

  /** A found clue comes from a directory listing: from the earliest matching
      regular file in it, in listing order. */
  lemma FromDirectoryUsesFirstMatch(tree: ClueTree, format: string, suspect: string,
                                    parse: string -> Option<Json>, showObject: map<string, Json> -> string)
    returns (i: nat)
    requires FromDirectory(tree, format, suspect, parse, showObject).Some?
    ensures format in tree && tree[format].Some?
    ensures i < |tree[format].value| && IsClueFile(tree[format].value[i], suspect)
    ensures forall j :: 0 <= j < i ==> !IsClueFile(tree[format].value[j], suspect)
    ensures FileClue(tree[format].value[i], suspect, parse, showObject) == FromDirectory(tree, format, suspect, parse, showObject)
  {
    i := MatchingHeadIndex(tree[format].value, suspect);
  }

  /** `ClueFor` unrolled over its two spellings. */
  lemma TwoSpellings(tree: ClueTree, day: int, suspect: string,
                     parse: string -> Option<Json>, showObject: map<string, Json> -> string)
    ensures ClueFor(tree, day, suspect, parse, showObject)
         == match FromDirectory(tree, DayFormats(day)[0], suspect, parse, showObject)
            case Some(clue) => clue
            case None =>
              match FromDirectory(tree, DayFormats(day)[1], suspect, parse, showObject)
              case Some(clue) => clue
              case None => NoClues(suspect)
  {
    var formats := DayFormats(day);
    assert formats[1..][0] == formats[1] && formats[1..][1..] == [];
    assert FirstClue(tree, formats[1..][1..], suspect, parse, showObject) == NoClues(suspect);
    assert FirstClue(tree, formats[1..], suspect, parse, showObject)
        == match FromDirectory(tree, formats[1], suspect, parse, showObject)
           case Some(clue) => clue
           case None => NoClues(suspect);
  }

  /** Only three kinds of answer exist: a clue starting with the clue header,
      from the first spelling that yields one, or exactly the fallback, which
      never starts with the header. */
  lemma ClueForShape(tree: ClueTree, day: int, suspect: string,
                     parse: string -> Option<Json>, showObject: map<string, Json> -> string)
    ensures var r := ClueFor(tree, day, suspect, parse, showObject);
            || r == NoClues(suspect)
            || FromDirectory(tree, DayFormats(day)[0], suspect, parse, showObject) == Some(r)
            || (FromDirectory(tree, DayFormats(day)[0], suspect, parse, showObject).None?
                && FromDirectory(tree, DayFormats(day)[1], suspect, parse, showObject) == Some(r))
    ensures forall format :: FromDirectory(tree, format, suspect, parse, showObject).Some? ==>
              StartsWith(FromDirectory(tree, format, suspect, parse, showObject).value, ClueHeader(suspect))
    ensures !StartsWith(NoClues(suspect), ClueHeader(suspect))
  {
    TwoSpellings(tree, day, suspect, parse, showObject);
    assert NoClues(suspect)[0] != ClueHeader(suspect)[0];
  }

  /** Neither spelling of the day's directory exists: the fallback. */
  lemma NoDirectoryNoClue(tree: ClueTree, day: int, suspect: string,
                          parse: string -> Option<Json>, showObject: map<string, Json> -> string)
    requires DayFormats(day)[0] !in tree && DayFormats(day)[1] !in tree
    ensures ClueFor(tree, day, suspect, parse, showObject) == "No new clues for " + CapitalizeFirst(suspect) + " today."
  {
    TwoSpellings(tree, day, suspect, parse, showObject);
  }

  /** A failure in the first spelling (missing, unlistable, no match, read or
      decode error) falls through to the second spelling. */
  lemma FirstSpellingFallsThrough(tree: ClueTree, day: int, suspect: string,
                                  parse: string -> Option<Json>, showObject: map<string, Json> -> string)
    requires FromDirectory(tree, DayFormats(day)[0], suspect, parse, showObject).None?
    ensures ClueFor(tree, day, suspect, parse, showObject)
         == match FromDirectory(tree, DayFormats(day)[1], suspect, parse, showObject)
            case Some(clue) => clue
            case None => NoClues(suspect)
  {
    TwoSpellings(tree, day, suspect, parse, showObject);
  }

  /** A directory's clue is the clue of its earliest matching regular file. */
  lemma DirectoryUsesEntry(tree: ClueTree, format: string, suspect: string,
                           parse: string -> Option<Json>, showObject: map<string, Json> -> string, i: nat)
    requires format in tree && tree[format].Some?
    requires i < |tree[format].value| && IsClueFile(tree[format].value[i], suspect)
    requires forall j :: 0 <= j < i ==> !IsClueFile(tree[format].value[j], suspect)
    ensures FromDirectory(tree, format, suspect, parse, showObject) == FileClue(tree[format].value[i], suspect, parse, showObject)
  {
    MatchingHead(tree[format].value, suspect, i);
  }

  /** A clue the first spelling yields is the answer. */
  lemma FirstSpellingWins(tree: ClueTree, day: int, suspect: string,
                          parse: string -> Option<Json>, showObject: map<string, Json> -> string, clue: string)
    requires FromDirectory(tree, DayFormats(day)[0], suspect, parse, showObject) == Some(clue)
    ensures ClueFor(tree, day, suspect, parse, showObject) == clue
  {
    TwoSpellings(tree, day, suspect, parse, showObject);
  }

  /** A JSON clue file under the first spelling whose first truthy field among
      `clue`, `text`, `content` is the string `x` gives the header followed by `x`. */
  lemma JsonClueLoaded(tree: ClueTree, day: int, suspect: string,
                       parse: string -> Option<Json>, showObject: map<string, Json> -> string,
                       i: nat, fields: map<string, Json>, key: nat, x: string)
    requires DayFormats(day)[0] in tree && tree[DayFormats(day)[0]].Some?
    requires var entries := tree[DayFormats(day)[0]].value;
             && i < |entries| && IsClueFile(entries[i], suspect)
             && (forall j :: 0 <= j < i ==> !IsClueFile(entries[j], suspect))
             && EndsWith(Lower(entries[i].name), ".json")
             && entries[i].content.Some? && parse(entries[i].content.value) == Some(JObject(fields))
    requires key < |ClueKeys| && ClueKeys[key] in fields && fields[ClueKeys[key]] == JString(x) && x != []
    requires forall j :: 0 <= j < key ==> !(ClueKeys[j] in fields && Truthy(fields[ClueKeys[j]]))
    ensures ClueFor(tree, day, suspect, parse, showObject) == ClueHeader(suspect) + x
  {
    var entry := tree[DayFormats(day)[0]].value[i];
    assert JsonClueText(fields, showObject) == x by {
      FirstTruthyIsEarliest(fields, ClueKeys, key);
    }
    assert FileClue(entry, suspect, parse, showObject) == Some(ClueHeader(suspect) + x);
    DirectoryUsesEntry(tree, DayFormats(day)[0], suspect, parse, showObject, i);
    FirstSpellingWins(tree, day, suspect, parse, showObject, ClueHeader(suspect) + x);
  }

  /** The clue text of a JSON clue file is the value under the earliest truthy
      key among `clue`, `text`, `content`, printed as `str()` prints it: a
      number such as `42` gives its digits, not a fixed marker. */
  lemma JsonClueTextIsEarliest(fields: map<string, Json>, showObject: map<string, Json> -> string, key: nat)
    requires key < |ClueKeys| && ClueKeys[key] in fields && Truthy(fields[ClueKeys[key]])
    requires forall j :: 0 <= j < key ==> !(ClueKeys[j] in fields && Truthy(fields[ClueKeys[j]]))
    ensures JsonClueText(fields, showObject) == Shown(fields[ClueKeys[key]], showObject)
    ensures fields[ClueKeys[key]].JString? ==> JsonClueText(fields, showObject) == fields[ClueKeys[key]].s
    ensures fields[ClueKeys[key]].JOther? ==> JsonClueText(fields, showObject) == fields[ClueKeys[key]].text
  {
    FirstTruthyIsEarliest(fields, ClueKeys, key);
  }

  /** A JSON clue file with none of the three fields truthy gives the marker text. */
  lemma JsonClueWithoutText(fields: map<string, Json>, showObject: map<string, Json> -> string)
    requires forall j :: 0 <= j < |ClueKeys| ==> !(ClueKeys[j] in fields && Truthy(fields[ClueKeys[j]]))
    ensures JsonClueText(fields, showObject) == "No clue text found in JSON"
  {
  }

  /** A `.txt` clue file under the first spelling gives the header followed by
      its text with surrounding whitespace removed. */
  lemma TextClueLoaded(tree: ClueTree, day: int, suspect: string,
                       parse: string -> Option<Json>, showObject: map<string, Json> -> string, i: nat, text: string)
    requires DayFormats(day)[0] in tree && tree[DayFormats(day)[0]].Some?
    requires var entries := tree[DayFormats(day)[0]].value;
             && i < |entries| && IsClueFile(entries[i], suspect)
             && (forall j :: 0 <= j < i ==> !IsClueFile(entries[j], suspect))
             && !EndsWith(Lower(entries[i].name), ".json")
             && entries[i].content == Some(text)
    ensures ClueFor(tree, day, suspect, parse, showObject) == ClueHeader(suspect) + Strip(text)
  {
    var entry := tree[DayFormats(day)[0]].value[i];
    assert FileClue(entry, suspect, parse, showObject) == Some(ClueHeader(suspect) + Strip(text));
    DirectoryUsesEntry(tree, DayFormats(day)[0], suspect, parse, showObject, i);
    FirstSpellingWins(tree, day, suspect, parse, showObject, ClueHeader(suspect) + Strip(text));
  }
}
