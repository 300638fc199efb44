/** Suspect profiles (`load_suspect_data`) and the filling of the interrogation
    prompt template in `ask_endpoint`. Profile files are given as a map from
    file name in the suspects directory to what reading it gives (`None` when
    the read fails); the JSON decoder `parse` is a parameter. */
module PromptComposer {
  import opened Wrappers
  import opened Text
  import opened JsonValue

  /** The profile file of a suspect: the lower-cased name with `.json`. */
  function ProfileFileName(name: string): string {
    Lower(name) + ".json"
  }

  /** `load_suspect_data`: the decoded profile, or `{}` when the file is
      missing, cannot be read or does not decode. */
  function LoadSuspectData(suspects: map<string, Option<string>>, name: string,
                           parse: string -> Option<Json>): (data: Json)
    ensures ProfileFileName(name) !in suspects ==> data == Empty
    ensures ProfileFileName(name) in suspects && suspects[ProfileFileName(name)].None? ==> data == Empty
    ensures ProfileFileName(name) in suspects && suspects[ProfileFileName(name)].Some?
            && parse(suspects[ProfileFileName(name)].value).Some? ==>
              data == parse(suspects[ProfileFileName(name)].value).value
    ensures data != Empty ==>
              ProfileFileName(name) in suspects && suspects[ProfileFileName(name)].Some?
              && parse(suspects[ProfileFileName(name)].value) == Some(data)
  {
    var file := ProfileFileName(name);
    if file in suspects then
      match suspects[file]
      case None => Empty
      case Some(text) =>
        match parse(text)
        case Some(data) => data
        case None => Empty
    else Empty
  }

  /** Names are compared case-insensitively: two spellings that lower-case
      alike load the same profile. */
  lemma ProfileNameCaseInsensitive(suspects: map<string, Option<string>>, a: string, b: string,
                                   parse: string -> Option<Json>)
    requires Lower(a) == Lower(b)
    ensures LoadSuspectData(suspects, a, parse) == LoadSuspectData(suspects, b, parse)
  {
  }

  /** The seven placeholders, in the order they are replaced. */
  const Placeholders: seq<string> :=
    ["{name}", "{question}", "{tone}", "{backstory}", "{time_range}", "{location}", "{relationship_to_victim}"]

  /** Why filling the template raises: `.get` on a profile or timeline that is
      not an object, or `.replace` with a value that is not a string. */
  datatype PromptError = ProfileNotObject | TimelineNotObject | NotText(field: string)

  /** `timeline.get('claimed_location') or timeline.get('location', '')`. */
  function Location(timeline: map<string, Json>): (j: Json)
    ensures "claimed_location" in timeline && Truthy(timeline["claimed_location"]) ==> j == timeline["claimed_location"]
    ensures !("claimed_location" in timeline && Truthy(timeline["claimed_location"])) ==>
              j == (if "location" in timeline then timeline["location"] else JString(""))
  {
    if "claimed_location" in timeline && Truthy(timeline["claimed_location"]) then timeline["claimed_location"]
    else GetOr(timeline, "location", JString(""))
  }

  /** A value handed to `.replace` must be a string. */
  function AsText(j: Json, field: string): (r: Result<string, PromptError>)
    ensures r.Ok? <==> j.JString?
    ensures r.Ok? ==> r.value == j.s
  {
    if j.JString? then Ok(j.s) else Err(NotText(field))
  }

  /** `fields.get(key, default)` for a field that is absent or a string. */
  function TextOr(fields: map<string, Json>, key: string, default: string): string {
    if key in fields && fields[key].JString? then fields[key].s else default
  }

  /** The replacement for each placeholder, in order, with the defaults the
      source uses for missing fields; the first value that cannot be used is
      reported, in the order the chain evaluates them. */
  function PromptValues(suspect: string, question: string, data: Json): (r: Result<seq<string>, PromptError>)
    ensures r.Ok? <==> UsableProfile(data)
    ensures !data.JObject? ==> r == Err(ProfileNotObject)
    ensures r.Ok? ==>
              var timeline := GetOr(data.fields, "timeline", Empty).fields;
              r.value == [CapitalizeFirst(suspect), question,
                          TextOr(data.fields, "tone", "neutral"),
                          TextOr(data.fields, "backstory", ""),
                          TextOr(timeline, "time_range", ""),
                          Location(timeline).s,
                          TextOr(data.fields, "relationship_to_victim", "Unknown relationship")]
  {
    if !data.JObject? then Err(ProfileNotObject)
    else
      var fields := data.fields;
      var timeline := GetOr(fields, "timeline", Empty);
      match AsText(GetOr(fields, "tone", JString("neutral")), "tone")
      case Err(e) => Err(e)
      case Ok(tone) =>
        match AsText(GetOr(fields, "backstory", JString("")), "backstory")
        case Err(e) => Err(e)
        case Ok(backstory) =>
          if !timeline.JObject? then Err(TimelineNotObject)
          else
            match AsText(GetOr(timeline.fields, "time_range", JString("")), "time_range")
            case Err(e) => Err(e)
            case Ok(timeRange) =>
              match AsText(Location(timeline.fields), "location")
              case Err(e) => Err(e)
              case Ok(location) =>
                match AsText(GetOr(fields, "relationship_to_victim", JString("Unknown relationship")), "relationship_to_victim")
                case Err(e) => Err(e)
                case Ok(relationship) =>
                  Ok([CapitalizeFirst(suspect), question, tone, backstory, timeRange, location, relationship])
  }

  /** A field the prompt uses is either absent or a string. */
  predicate TextOrAbsent(fields: map<string, Json>, key: string) {
    key !in fields || fields[key].JString?
  }

  /** A profile every placeholder can be filled from. */
  predicate UsableProfile(data: Json) {
    && data.JObject?
    && TextOrAbsent(data.fields, "tone")
    && TextOrAbsent(data.fields, "backstory")
    && TextOrAbsent(data.fields, "relationship_to_victim")
    && ("timeline" !in data.fields
        || (data.fields["timeline"].JObject?
            && TextOrAbsent(data.fields["timeline"].fields, "time_range")
            && Location(data.fields["timeline"].fields).JString?))
  }

  /** The `{location}` value is the timeline's `claimed_location` whenever
      that is a non-empty string, even if `location` is present too. */
  lemma LocationPrefersClaimed(suspect: string, question: string, data: Json, claimed: string)
    requires UsableProfile(data) && "timeline" in data.fields
    requires "claimed_location" in data.fields["timeline"].fields
    requires data.fields["timeline"].fields["claimed_location"] == JString(claimed) && claimed != []
    ensures PromptValues(suspect, question, data).Ok?
    ensures PromptValues(suspect, question, data).value[5] == claimed
  {
  }

  /** Replaces `patterns[i]` by `values[i]` one after the other, each on the
      output of the previous one, so a value that contains a later
      placeholder has that placeholder replaced too. */
  function ReplaceInOrder(text: string, patterns: seq<string>, values: seq<string>): string
    requires |patterns| == |values|
    requires forall i :: 0 <= i < |patterns| ==> patterns[i] != []
    decreases |patterns|
  {
    if patterns == [] then text
    else ReplaceInOrder(ReplaceAll(text, patterns[0], values[0]), patterns[1..], values[1..])
  }

  /** The chained `.replace` calls of `ask_endpoint`. */
  function ComposePrompt(template: string, suspect: string, question: string, data: Json): (r: Result<string, PromptError>)
    ensures r.Ok? <==> UsableProfile(data)
    ensures !data.JObject? ==> r == Err(ProfileNotObject)
  {
    match PromptValues(suspect, question, data)
    case Err(e) => Err(e)
    case Ok(values) => Ok(ReplaceInOrder(template, Placeholders, values))
  }

  /** No `{` in the string. */
  predicate NoBrace(s: string) {
    forall i :: 0 <= i < |s| ==> s[i] != '{'
  }

  /** A pattern that starts with `{` does not occur in a string without `{`. */
  lemma BracePatternAbsent(s: string, pat: string, rep: string)
    requires pat != [] && pat[0] == '{' && NoBrace(s)
    ensures ReplaceAll(s, pat, rep) == s
  {
    assert forall i: nat :: !OccursAt(s, pat, i) by {
      forall i: nat ensures !OccursAt(s, pat, i) {
        if i + |pat| <= |s| {
          assert s[i..i + |pat|][0] == s[i];
        }
      }
    }
    ReplaceAbsent(s, pat, rep);
  }

  /** Text without `{` passes through any chain of `{...}` replacements unchanged. */
  lemma {:induction false} ReplaceInOrderPlain(text: string, patterns: seq<string>, values: seq<string>)
    requires |patterns| == |values|
    requires forall i :: 0 <= i < |patterns| ==> patterns[i] != [] && patterns[i][0] == '{'
    requires NoBrace(text)
    ensures ReplaceInOrder(text, patterns, values) == text
  {
    if patterns != [] {
      BracePatternAbsent(text, patterns[0], values[0]);
      ReplaceInOrderPlain(text, patterns[1..], values[1..]);
    }
  }

  /** A template without placeholders comes back as it is. */
  lemma ComposeKeepsPlainTemplate(template: string, suspect: string, question: string, data: Json)
    requires NoBrace(template) && UsableProfile(data)
    ensures ComposePrompt(template, suspect, question, data) == Ok(template)
  {
    var values := PromptValues(suspect, question, data).value;
    ReplaceInOrderPlain(template, Placeholders, values);
  }

  /** The placeholder values when the profile has none of its fields. */
  function DefaultValues(suspect: string, question: string): seq<string> {
    [CapitalizeFirst(suspect), question, "neutral", "", "", "", "Unknown relationship"]
  }

  /** For a usable profile, each placeholder gets the profile's own string when
      the field is present and its default when it is absent: `tone`
      ("neutral"), `backstory` (""), the timeline's `time_range` ("") and
      location, and `relationship_to_victim` ("Unknown relationship"). */
  lemma ComposeFillsProfileFields(template: string, suspect: string, question: string,
                                  fields: map<string, Json>)
    requires UsableProfile(JObject(fields))
    ensures var timeline := GetOr(fields, "timeline", Empty).fields;
            ComposePrompt(template, suspect, question, JObject(fields))
            == Ok(ReplaceInOrder(template, Placeholders,
                    [CapitalizeFirst(suspect), question,
                     TextOr(fields, "tone", "neutral"),
                     TextOr(fields, "backstory", ""),
                     TextOr(timeline, "time_range", ""),
                     Location(timeline).s,
                     TextOr(fields, "relationship_to_victim", "Unknown relationship")]))
  {
  }

  /** A missing or undecodable profile fills every placeholder with its
      default: tone "neutral", relationship "Unknown relationship", the rest empty. */
  lemma ComposeWithoutProfile(template: string, suspect: string, question: string)
    ensures ComposePrompt(template, suspect, question, Empty)
         == Ok(ReplaceInOrder(template, Placeholders, DefaultValues(suspect, question)))
  {
  }

  /** `{name}` does not occur in the text `{question}`. */
  lemma NameNotInQuestionPlaceholder(v: string)
    ensures ReplaceAll("{question}", "{name}", v) == "{question}"
  {
    var q := "{question}";
    assert q[..6] != "{name}" by { assert q[1] == 'q'; }
    assert NoBrace(q[1..]);
    BracePatternAbsent(q[1..], "{name}", v);
    assert [q[0]] + q[1..] == q;
  }

  /** One step of the chain: the first replacement, then the rest. */
  lemma ReplaceInOrderStep(text: string, patterns: seq<string>, values: seq<string>, k: nat)
    requires |patterns| == |values| && k < |patterns|
    requires forall i :: 0 <= i < |patterns| ==> patterns[i] != []
    ensures ReplaceInOrder(text, patterns[k..], values[k..])
         == ReplaceInOrder(ReplaceAll(text, patterns[k], values[k]), patterns[k + 1..], values[k + 1..])
  {
    assert patterns[k..][1..] == patterns[k + 1..] && values[k..][1..] == values[k + 1..];
  }

  /** Every placeholder is non-empty and starts with `{`. */
  lemma PlaceholdersStartWithBrace()
    ensures forall i :: 0 <= i < |Placeholders| ==> Placeholders[i] != [] && Placeholders[i][0] == '{'
  {
  }

  /** `{name}` leaves the text `{question}` alone. */
  lemma NameStep(values: seq<string>)
    requires |values| == |Placeholders|
    ensures ReplaceInOrder("{question}", Placeholders, values)
         == ReplaceInOrder("{question}", Placeholders[1..], values[1..])
  {
    PlaceholdersStartWithBrace();
    var p := Placeholders;
    assert p[0] == "{name}";
    assert ReplaceAll("{question}", p[0], values[0]) == "{question}" by {
      NameNotInQuestionPlaceholder(values[0]);
    }
  }

  /** `{question}` turns the text `{question}` into the question. */
  lemma QuestionStep(values: seq<string>)
    requires |values| == |Placeholders|
    ensures ReplaceInOrder("{question}", Placeholders[1..], values[1..])
         == ReplaceInOrder(values[1], Placeholders[2..], values[2..])
  {
    assert Placeholders[1] == "{question}";
    ReplaceInOrderStep("{question}", Placeholders, values, 1);
    ReplaceWhole("{question}", values[1]);
  }

  /** `{tone}` turns the text `{tone}` into the tone. */
  lemma ToneStep(values: seq<string>)
    requires |values| == |Placeholders|
    ensures ReplaceInOrder("{tone}", Placeholders[2..], values[2..])
         == ReplaceInOrder(values[2], Placeholders[3..], values[3..])
  {
    assert Placeholders[2] == "{tone}";
    ReplaceInOrderStep("{tone}", Placeholders, values, 2);
    ReplaceWhole("{tone}", values[2]);
  }

  /** The replacements are sequential: a question put in by the `{question}`
      replacement goes through the five replacements that follow it, so a
      placeholder written inside the question is filled in as well. */
  lemma ComposeRewritesInsertedQuestion(suspect: string, question: string)
    ensures ComposePrompt("{question}", suspect, question, Empty)
         == Ok(ReplaceInOrder(question, Placeholders[2..], DefaultValues(suspect, question)[2..]))
  {
    var values := DefaultValues(suspect, question);
    ComposeWithoutProfile("{question}", suspect, question);
    NameStep(values);
    QuestionStep(values);
  }

  /** For instance, the question `{tone}` becomes the default tone. */
  lemma ComposeRewritesToneInQuestion(suspect: string)
    ensures ComposePrompt("{question}", suspect, "{tone}", Empty) == Ok("neutral")
  {
    var values := DefaultValues(suspect, "{tone}");
    ComposeRewritesInsertedQuestion(suspect, "{tone}");
    ToneStep(values);
    NeutralIsPlain(values);
  }

  /** The last four replacements leave "neutral" alone. */
  lemma NeutralIsPlain(values: seq<string>)
    requires |values| == |Placeholders|
    ensures ReplaceInOrder("neutral", Placeholders[3..], values[3..]) == "neutral"
  {
    var tail := Placeholders[3..];
    PlaceholdersStartWithBrace();
    ReplaceInOrderPlain("neutral", tail, values[3..]);
  }
}
