/**
 * The weather-alert formatter: one alert feature, whose five properties are all
 * optional strings, rendered as a fixed six-line text block.
 */
module Alerts {
  import opened Wrappers
  import opened Text

  /** The `properties` object of an alert feature; every field may be absent (`undefined` or `null`). */
  datatype AlertProperties = AlertProperties(
    event: Option<string>,
    areaDesc: Option<string>,
    severity: Option<string>,
    status: Option<string>,
    headline: Option<string>)

  /** An alert feature as returned by the alerts endpoint. */
  datatype AlertFeature = AlertFeature(properties: AlertProperties)

  /** The line prefixes, in output order. */
  const Labels: seq<string> := ["Event: ", "Area: ", "Severity: ", "Status: ", "Headline: "]

  /** The placeholder substituted for each field, in the same order. */
  const Placeholders: seq<string> := ["Unknown", "Unknown", "Unknown", "Unknown", "No headline"]

  /** The line that closes every alert block. */
  const Separator: string := "---"

  /** The `i`-th field of the record, in output order. */
  function Field(p: AlertProperties, i: nat): Option<string>
    requires i < 5
  {
    if i == 0 then p.event
    else if i == 1 then p.areaDesc
    else if i == 2 then p.severity
    else if i == 3 then p.status
    else p.headline
  }

  /** A field is falsy under JavaScript's `||` when it is `undefined`, `null` or `""`. */
  predicate Falsy(field: Option<string>) {
    field == None || field == Some("")
  }

  /**
   * `field || default`: the field's own value when it is truthy, otherwise the
   * default. The rendered text is never empty when the default is not.
   */
  function Present(field: Option<string>, default: string): (r: string)
    ensures Falsy(field) ==> r == default
    ensures !Falsy(field) ==> r == field.value && r != ""
    ensures default != "" ==> r != ""
  {
    match field
    case Some(v) => if v != "" then v else default
    case None => default
  }

  /** Line `i < 5`: label `i` followed by field `i` or, when it is falsy, placeholder `i`. */
  function Line(p: AlertProperties, i: nat): string
    requires i < 5
  {
    Labels[i] + Present(Field(p, i), Placeholders[i])
  }

  /** The array literal the formatter joins: five labelled lines and the separator. */
  function AlertLines(p: AlertProperties): (r: seq<string>)
    ensures |r| == 6
    ensures r[5] == Separator
  {
    [Line(p, 0), Line(p, 1), Line(p, 2), Line(p, 3), Line(p, 4), Separator]
  }

  /**
   * `formatAlert`: the six lines joined with `"\n"`. Total: no precondition. The
   * last line is the literal `---` and no line break follows it.
   */
  function FormatAlert(feature: AlertFeature): (r: string)
    ensures EndsWith(r, "\n" + Separator)
    ensures r[|r| - 1] != '\n'
  {
    var l := AlertLines(feature.properties);
    assert l == [l[0], l[1], l[2], l[3], l[4], l[5]];
    JoinSix(l[0], l[1], l[2], l[3], l[4], l[5], "\n");
    var front := l[0] + "\n" + l[1] + "\n" + l[2] + "\n" + l[3] + "\n" + l[4];
    assert Join(l, "\n") == front + ("\n" + Separator);
    Join(l, "\n")
  }

  /** Every field value is free of line breaks. */
  predicate NewlineFree(p: AlertProperties) {
    forall i :: 0 <= i < 5 ==> Field(p, i).None? || '\n' !in Field(p, i).value
  }

  /** The exact output: the six lines in order, separated by `"\n"`, nothing after `---`. */
  lemma FormatAlertLayout(feature: AlertFeature)
    ensures FormatAlert(feature) ==
      ("Event: " + Present(feature.properties.event, "Unknown")) + "\n" +
      ("Area: " + Present(feature.properties.areaDesc, "Unknown")) + "\n" +
      ("Severity: " + Present(feature.properties.severity, "Unknown")) + "\n" +
      ("Status: " + Present(feature.properties.status, "Unknown")) + "\n" +
      ("Headline: " + Present(feature.properties.headline, "No headline")) + "\n" +
      "---"
  {
    var l := AlertLines(feature.properties);
    assert l == [l[0], l[1], l[2], l[3], l[4], l[5]];
    JoinSix(l[0], l[1], l[2], l[3], l[4], l[5], "\n");
  }

  /** A line of a newline-free record holds no line break: neither labels nor placeholders do. */
  lemma LineNewlineFree(p: AlertProperties, i: nat)
    requires i < 5
    requires NewlineFree(p)
    ensures '\n' !in Line(p, i)
  {
    assert '\n' !in Labels[i];
    assert '\n' !in Placeholders[i];
    var v := Present(Field(p, i), Placeholders[i]);
    assert '\n' !in v;
  }

  /**
   * When no field contains a line break, splitting the output on `"\n"` gives
   * back exactly the six lines, so there are exactly six pieces.
   */
  lemma FormatAlertLines(feature: AlertFeature)
    requires NewlineFree(feature.properties)
    ensures Split(FormatAlert(feature), '\n') == AlertLines(feature.properties)
    ensures |Split(FormatAlert(feature), '\n')| == 6
  {
    var p := feature.properties;
    var l := AlertLines(p);
    forall i | 0 <= i < 6 ensures '\n' !in l[i] {
      if i < 5 {
        LineNewlineFree(p, i);
      }
    }
    SplitJoin(l, '\n');
  }

  /** An absent or empty field renders as its placeholder after its label. */
  lemma AbsentRendersPlaceholder(p: AlertProperties, i: nat)
    requires i < 5
    requires Falsy(Field(p, i))
    ensures AlertLines(p)[i] == Labels[i] + Placeholders[i]
    ensures i < 4 ==> AlertLines(p)[i] == Labels[i] + "Unknown"
    ensures i == 4 ==> AlertLines(p)[i] == "Headline: No headline"
  {
  }

  /** A present, non-empty field appears verbatim right after its label. */
  lemma PresentRendersVerbatim(p: AlertProperties, i: nat, v: string)
    requires i < 5
    requires Field(p, i) == Some(v) && v != ""
    ensures AlertLines(p)[i] == Labels[i] + v
  {
  }

  /** Each field affects only its own line: equal fields give equal lines. */
  lemma FieldOnlyAffectsOwnLine(p: AlertProperties, q: AlertProperties, i: nat)
    requires i < 6
    requires i < 5 ==> Field(p, i) == Field(q, i)
    ensures AlertLines(p)[i] == AlertLines(q)[i]
  {
  }

  /** The record with every empty-string field replaced by an absent one. */
  function Normalized(p: AlertProperties): (r: AlertProperties)
    ensures forall i :: 0 <= i < 5 ==> Field(r, i) != Some("")
    ensures forall i :: 0 <= i < 5 ==> (Falsy(Field(r, i)) <==> Falsy(Field(p, i)))
    ensures forall i :: 0 <= i < 5 && !Falsy(Field(p, i)) ==> Field(r, i) == Field(p, i)
  {
    AlertProperties(
      if p.event == Some("") then None else p.event,
      if p.areaDesc == Some("") then None else p.areaDesc,
      if p.severity == Some("") then None else p.severity,
      if p.status == Some("") then None else p.status,
      if p.headline == Some("") then None else p.headline)
  }

  /** Because of `||`, a field equal to `""` renders exactly like an absent one. */
  lemma EmptyIsAbsent(feature: AlertFeature)
    ensures FormatAlert(feature) == FormatAlert(AlertFeature(Normalized(feature.properties)))
  {
    var p := feature.properties;
    var q := Normalized(p);
    forall i | 0 <= i < 6 ensures AlertLines(p)[i] == AlertLines(q)[i] {
      if i < 5 {
        assert Line(p, i) == Line(q, i);
      }
    }
    assert AlertLines(p) == AlertLines(q);
  }

  /** The record with every field absent. */
  const Blank: AlertProperties := AlertProperties(None, None, None, None, None)

  /** With every field absent the formatter still succeeds and yields the all-placeholder block. */
  lemma AllAbsentBlock()
    ensures FormatAlert(AlertFeature(Blank)) ==
      "Event: Unknown" + "\n" + "Area: Unknown" + "\n" + "Severity: Unknown" + "\n" +
      "Status: Unknown" + "\n" + "Headline: No headline" + "\n" + "---"
  {
    FormatAlertLayout(AlertFeature(Blank));
    assert "Event: " + "Unknown" == "Event: Unknown";
    assert "Area: " + "Unknown" == "Area: Unknown";
    assert "Severity: " + "Unknown" == "Severity: Unknown";
    assert "Status: " + "Unknown" == "Status: Unknown";
    assert "Headline: " + "No headline" == "Headline: No headline";
  }
}
