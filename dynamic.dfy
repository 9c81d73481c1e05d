/**
 * The stand-alone variant of the scraper (Dynamic.py): the prompt it sends,
 * the schedule it scrolls a page by, the field definitions of the record
 * model it builds, and the guard of its start button. The browser is
 * replaced by the page height it reports; the scroll commands are returned
 * in order.
 */
module Dynamic {
  import opened Collections
  import opened Strings

  /** The instructions every prompt of this variant starts with. */
  const SystemMessage := "You are an intelligent text extraction and conversion assistant. \nYour task is to extract structured information from the given text and convert it into a pure JSON format. \nThe JSON should contain only the structured data extracted from the text, focusing exclusively on the specified input fields."

  /** The text placed between the field list and the page content. */
  const UserMessage := "Extract the following information from the provided text:\nPage content:\n\n"

  /** The text placed between the instructions and the field list. */
  const FieldsIntro := " focusing on the following fields: "

  /** What the prompt names when no field was given. */
  const AllFields := "all fields"

  /** The distance between two scroll offsets. */
  const ScrollIncrement := 500

  /** The field list named in the prompt: the requested fields separated by ", ", or "all fields" when there are none. */
  function SpecifiedFields(fields: Option<seq<string>>): string
  {
    if fields.Some? && fields.value != [] then Join(", ", fields.value) else AllFields
  }

  /** The prompt: the instructions, the field list, the user message and then the page text. */
  function Prompt(data: string, fields: Option<seq<string>>): (p: string)
    ensures StartsWith(p, SystemMessage)
    ensures EndsWith(p, data)
  {
    Framed(SystemMessage, FieldsIntro, SpecifiedFields(fields), ".\n" + UserMessage, data)
  }

  /** The prompt names every requested field at its place in the ", "-separated list. */
  lemma PromptNamesEachField(data: string, fields: seq<string>, k: nat)
    requires k < |fields|
    ensures IsInfixAt(fields[k], Prompt(data, Some(fields)),
                      |SystemMessage| + |FieldsIntro| + JoinOffset(", ", fields, k))
  {
    FramedNamesEachPart(SystemMessage, FieldsIntro, ", ", fields, ".\n" + UserMessage, data, k);
  }

  /** Without fields, the prompt names "all fields" where the field list would stand. */
  lemma PromptWithoutFields(data: string, fields: Option<seq<string>>)
    requires fields.None? || fields.value == []
    ensures IsInfixAt(AllFields, Prompt(data, fields), |SystemMessage| + |FieldsIntro|)
  {
    FramedNamesList(SystemMessage, FieldsIntro, AllFields, ".\n" + UserMessage, data);
  }

  /**
   * `scroll_page`: one scroll command per offset `0, 500, 1000, ...` below
   * the page height, then one back to the top.
   */
  method ScrollPage(totalHeight: int) returns (commands: seq<int>)
    ensures commands == Range(totalHeight, ScrollIncrement) + [0]
    ensures |commands| == 1 + if totalHeight > 0 then (totalHeight + ScrollIncrement - 1) / ScrollIncrement else 0
    ensures forall k :: 0 <= k < |commands| - 1 ==> commands[k] == ScrollIncrement * k && commands[k] < totalHeight
    ensures commands[|commands| - 1] == 0
  {
    commands := [];
    var height := 0;
    while height < totalHeight
      invariant height >= 0
      invariant commands + RangeFrom(height, totalHeight, ScrollIncrement) == Range(totalHeight, ScrollIncrement)
      decreases totalHeight - height
    {
      commands := commands + [height];
      height := height + ScrollIncrement;
    }
    assert commands == Range(totalHeight, ScrollIncrement);
    RangeLength(totalHeight, ScrollIncrement);
    forall k | 0 <= k < |commands| ensures commands[k] == ScrollIncrement * k && commands[k] < totalHeight {
      RangeFromAt(0, totalHeight, ScrollIncrement, k);
    }
    commands := commands + [0];
  }

  /** The type a field of the record model is declared with. */
  datatype FieldType = Str

  /** A field declaration of the record model: its type, and whether a value must be present. */
  datatype FieldDefinition = FieldDefinition(fieldType: FieldType, required: bool)

  /** `create_dynamic_listing_model`'s field map: every field name declared a required string. */
  function FieldDefinitions(fieldNames: seq<string>): map<string, FieldDefinition>
  {
    map name | name in fieldNames :: FieldDefinition(Str, true)
  }

  /**
   * The record model has one field per distinct requested name, as many as
   * the deduplicated field list holds, each a required string.
   */
  lemma FieldDefinitionsCover(fieldNames: seq<string>)
    ensures forall name :: name in FieldDefinitions(fieldNames) <==> name in fieldNames
    ensures forall name :: name in FieldDefinitions(fieldNames) ==> FieldDefinitions(fieldNames)[name] == FieldDefinition(Str, true)
    ensures |FieldDefinitions(fieldNames)| == |Dedup(fieldNames)|
  {
    var d := Dedup(fieldNames);
    DedupProperties(fieldNames);
    DistinctCardinality(d);
    assert FieldDefinitions(fieldNames).Keys == set x | x in d;
  }

  /** The field list the form produces: the text area's content split at every comma. */
  function FieldsFromText(text: string): seq<string>
  {
    Split(text, ',')
  }

  /** The start button's guard: a URL and a non-empty field list. */
  predicate StartsScrape(url: string, fieldsText: string)
  {
    url != "" && FieldsFromText(fieldsText) != []
  }

  /** Splitting never gives an empty list, so the guard depends on the URL alone. */
  lemma StartGuardIsUrlOnly(url: string, fieldsText: string)
    ensures StartsScrape(url, fieldsText) <==> url != ""
  {
  }

  /**
   * The fields a run gets from the form always reach the prompt as their
   * ", "-join, never as "all fields"; an empty text area gives one empty
   * field and so an empty field list in the prompt.
   */
  lemma FormFieldsNeverAllFields(fieldsText: string)
    ensures SpecifiedFields(Some(FieldsFromText(fieldsText))) == Join(", ", FieldsFromText(fieldsText))
    ensures fieldsText == "" ==> SpecifiedFields(Some(FieldsFromText(fieldsText))) == ""
  {
    if fieldsText == "" {
      assert FieldsFromText(fieldsText) == [""];
    }
  }

  /** The form's field list gives the text back when joined with commas. */
  lemma FieldsFromTextRoundTrip(fieldsText: string)
    ensures Join(",", FieldsFromText(fieldsText)) == fieldsText
  {
    JoinSplit(fieldsText, ',');
    assert [','] == ",";
  }
}
