/** The adapter that presents a simple JSONPath content template as a
    calculated-function content template. */
module CalculatedFunctionFacade {
  import opened Wrappers
  import opened DotNetText
  import opened ContentTemplates

  /** The exceptions the facade's constructor can raise. */
  datatype FacadeError =
    | InnerTemplateNull   // the argument guard on the inner template
    | ValuesNull          // projecting a null `Values` list
    | ValueEntryNull      // dereferencing a null entry of `Values`

  /** A constructed facade: the canonical template it exposes, plus the inner
      template it was built from (read back through `InnerTemplate`). */
  datatype Facade = Facade(
    innerTemplate: JsonPathContentTemplate,
    template: CalculatedFunctionContentTemplate)

  /** A header string becomes a JSONPath expression with the same text, unless
      it is null or holds nothing but white space, in which case it is absent. */
  function CreateExpression(value: Option<string>): (r: Option<Expression>)
    ensures r.Some? <==> value.Some? && exists i :: 0 <= i < |value.value| && !IsWhiteSpace(value.value[i])
    ensures r.Some? ==> r.value.value == value.value && r.value.language == JsonPath
  {
    if !IsNullOrWhiteSpace(value) then Some(Expression(value.value, JsonPath)) else None
  }

  /** The projection applied to each entry of `Values`. */
  function ProjectValue(v: JsonPathValueExpression): CalculatedFunctionValueExpression {
    CalculatedFunctionValueExpression(v.valueName, v.valueExpression, JsonPath, v.required)
  }

  /** `Values` projected entry by entry, in order. A null list or a null entry
      raises; blank value expressions are kept as they are. */
  function ProjectValues(values: Option<seq<Option<JsonPathValueExpression>>>)
    : (r: Result<seq<CalculatedFunctionValueExpression>, FacadeError>)
    ensures values.None? ==> r == Err(ValuesNull)
    ensures values.Some? ==> (r.Ok? <==> forall i :: 0 <= i < |values.value| ==> values.value[i].Some?)
    ensures values.Some? && r.Err? ==> r.error == ValueEntryNull
    ensures r.Ok? ==> |r.value| == |values.value|
    ensures r.Ok? ==> forall i :: 0 <= i < |r.value| ==>
              && r.value[i].valueName == values.value[i].value.valueName
              && r.value[i].value == values.value[i].value.valueExpression
              && r.value[i].required == values.value[i].value.required
              && r.value[i].language == JsonPath
  {
    match values
    case None => Err(ValuesNull)
    case Some(vs) =>
      if forall i :: 0 <= i < |vs| ==> vs[i].Some? then
        Ok(seq(|vs|, i requires 0 <= i < |vs| => ProjectValue(vs[i].value)))
      else
        Err(ValueEntryNull)
  }

  /** The body of the facade's constructor once the inner template is known
      to be non-null. */
  function Adapt(inner: JsonPathContentTemplate): (r: Result<CalculatedFunctionContentTemplate, FacadeError>)
    ensures r.Ok? <==> inner.values.Some? && forall i :: 0 <= i < |inner.values.value| ==> inner.values.value[i].Some?
    ensures r.Err? ==> (r.error == ValuesNull <==> inner.values.None?) && r.error != InnerTemplateNull
    ensures r.Ok? ==> r.value.typeName == inner.typeName
    ensures r.Ok? ==> |r.value.values| == |inner.values.value|
  {
    match ProjectValues(inner.values)
    case Err(e) => Err(e)
    case Ok(vs) =>
      Ok(CalculatedFunctionContentTemplate(
        inner.typeName,
        CreateExpression(inner.typeMatchExpression),
        CreateExpression(inner.deviceIdExpression),
        CreateExpression(inner.patientIdExpression),
        CreateExpression(inner.encounterIdExpression),
        CreateExpression(inner.timestampExpression),
        CreateExpression(inner.correlationIdExpression),
        vs))
  }

  /** The facade's constructor: a null inner template is rejected before
      anything is read from it. */
  function NewFacade(inner: Option<JsonPathContentTemplate>): (r: Result<Facade, FacadeError>)
    ensures inner.None? <==> r == Err(InnerTemplateNull)
    ensures inner.Some? ==> (r.Ok? <==> Adapt(inner.value).Ok?)
    ensures r.Ok? ==> r.value.innerTemplate == inner.value
    ensures r.Ok? ==> Adapt(inner.value) == Ok(r.value.template)
  {
    match inner
    case None => Err(InnerTemplateNull)
    case Some(t) =>
      match Adapt(t)
      case Err(e) => Err(e)
      case Ok(c) => Ok(Facade(t, c))
  }

  // ---------------------------------------------------------------------
  // Properties of the translation

  /** Every expression of a canonical template is written in JSONPath. */
  predicate AllJsonPath(c: CalculatedFunctionContentTemplate) {
    && (c.typeMatchExpression.Some? ==> c.typeMatchExpression.value.language == JsonPath)
    && (c.deviceIdExpression.Some? ==> c.deviceIdExpression.value.language == JsonPath)
    && (c.patientIdExpression.Some? ==> c.patientIdExpression.value.language == JsonPath)
    && (c.encounterIdExpression.Some? ==> c.encounterIdExpression.value.language == JsonPath)
    && (c.timestampExpression.Some? ==> c.timestampExpression.value.language == JsonPath)
    && (c.correlationIdExpression.Some? ==> c.correlationIdExpression.value.language == JsonPath)
    && (forall i :: 0 <= i < |c.values| ==> c.values[i].language == JsonPath)
  }

  /** A header expression the adapter could have produced: absent, or JSONPath
      with text that is not blank. */
  predicate HeaderWellFormed(e: Option<Expression>) {
    e.Some? ==> e.value.language == JsonPath && !IsNullOrWhiteSpace(Some(e.value.value))
  }

  /** The image of the adapter: every canonical template it can return. */
  predicate WellFormed(c: CalculatedFunctionContentTemplate) {
    && AllJsonPath(c)
    && HeaderWellFormed(c.typeMatchExpression)
    && HeaderWellFormed(c.deviceIdExpression)
    && HeaderWellFormed(c.patientIdExpression)
    && HeaderWellFormed(c.encounterIdExpression)
    && HeaderWellFormed(c.timestampExpression)
    && HeaderWellFormed(c.correlationIdExpression)
  }

  /** A header string that does not collapse: null, or holding a character
      other than white space. */
  predicate HeaderNormal(s: Option<string>) {
    s.Some? ==> !IsNullOrWhiteSpace(s)
  }

  /** A simple template on which the adapter loses nothing: no blank header
      string, and a values list with no null entry. */
  predicate Normal(s: JsonPathContentTemplate) {
    && HeaderNormal(s.typeMatchExpression)
    && HeaderNormal(s.deviceIdExpression)
    && HeaderNormal(s.patientIdExpression)
    && HeaderNormal(s.encounterIdExpression)
    && HeaderNormal(s.timestampExpression)
    && HeaderNormal(s.correlationIdExpression)
    && s.values.Some?
    && (forall i :: 0 <= i < |s.values.value| ==> s.values.value[i].Some?)
  }

  /** Blank header strings turned into null. */
  function Collapse(s: Option<string>): Option<string> {
    if IsNullOrWhiteSpace(s) then None else s
  }

  /** The simple template with every blank header string turned into null. */
  function CollapseHeaders(s: JsonPathContentTemplate): JsonPathContentTemplate {
    s.(typeMatchExpression := Collapse(s.typeMatchExpression),
       deviceIdExpression := Collapse(s.deviceIdExpression),
       patientIdExpression := Collapse(s.patientIdExpression),
       encounterIdExpression := Collapse(s.encounterIdExpression),
       timestampExpression := Collapse(s.timestampExpression),
       correlationIdExpression := Collapse(s.correlationIdExpression))
  }

  /** The text of a header expression, or null when it is absent. */
  function ExpressionText(e: Option<Expression>): Option<string> {
    match e
    case None => None
    case Some(x) => Some(x.value)
  }

  /** The reverse translation: the simple template a canonical template was
      adapted from. */
  function Unadapt(c: CalculatedFunctionContentTemplate): JsonPathContentTemplate {
    JsonPathContentTemplate(
      c.typeName,
      ExpressionText(c.typeMatchExpression),
      ExpressionText(c.deviceIdExpression),
      ExpressionText(c.patientIdExpression),
      ExpressionText(c.encounterIdExpression),
      ExpressionText(c.timestampExpression),
      ExpressionText(c.correlationIdExpression),
      Some(seq(|c.values|, i requires 0 <= i < |c.values| =>
        Some(JsonPathValueExpression(c.values[i].valueName, c.values[i].value, c.values[i].required)))))
  }

  /** Each header expression is CreateExpression of the same-named inner field. */
  lemma HeaderExpressions(inner: JsonPathContentTemplate)
    requires Adapt(inner).Ok?
    ensures Adapt(inner).value.typeMatchExpression == CreateExpression(inner.typeMatchExpression)
    ensures Adapt(inner).value.deviceIdExpression == CreateExpression(inner.deviceIdExpression)
    ensures Adapt(inner).value.patientIdExpression == CreateExpression(inner.patientIdExpression)
    ensures Adapt(inner).value.encounterIdExpression == CreateExpression(inner.encounterIdExpression)
    ensures Adapt(inner).value.timestampExpression == CreateExpression(inner.timestampExpression)
    ensures Adapt(inner).value.correlationIdExpression == CreateExpression(inner.correlationIdExpression)
  {
  }

  /** No field is cross-wired: changing one inner field changes the matching
      output field and nothing else. The type name is copied verbatim, even
      when it is empty. */
  lemma FieldsNotCrossWired(inner: JsonPathContentTemplate, x: Option<string>)
    requires Adapt(inner).Ok?
    ensures Adapt(inner.(typeName := x)) == Ok(Adapt(inner).value.(typeName := x))
    ensures Adapt(inner.(typeMatchExpression := x))
         == Ok(Adapt(inner).value.(typeMatchExpression := CreateExpression(x)))
    ensures Adapt(inner.(deviceIdExpression := x))
         == Ok(Adapt(inner).value.(deviceIdExpression := CreateExpression(x)))
    ensures Adapt(inner.(patientIdExpression := x))
         == Ok(Adapt(inner).value.(patientIdExpression := CreateExpression(x)))
    ensures Adapt(inner.(encounterIdExpression := x))
         == Ok(Adapt(inner).value.(encounterIdExpression := CreateExpression(x)))
    ensures Adapt(inner.(timestampExpression := x))
         == Ok(Adapt(inner).value.(timestampExpression := CreateExpression(x)))
    ensures Adapt(inner.(correlationIdExpression := x))
         == Ok(Adapt(inner).value.(correlationIdExpression := CreateExpression(x)))
  {
  }

  /** Values keep their length and order; entry i carries entry i's name,
      expression text and required flag, in JSONPath. */
  lemma ValuesInOrder(inner: JsonPathContentTemplate, i: nat)
    requires Adapt(inner).Ok?
    requires i < |inner.values.value|
    ensures |Adapt(inner).value.values| == |inner.values.value|
    ensures Adapt(inner).value.values[i]
         == CalculatedFunctionValueExpression(
              inner.values.value[i].value.valueName,
              inner.values.value[i].value.valueExpression,
              JsonPath,
              inner.values.value[i].value.required)
  {
  }

  /** Unlike a header string, a blank value expression is copied as it is. */
  lemma BlankValueExpressionKept(inner: JsonPathContentTemplate, i: nat)
    requires Adapt(inner).Ok?
    requires i < |inner.values.value|
    requires IsNullOrWhiteSpace(inner.values.value[i].value.valueExpression)
    ensures Adapt(inner).value.values[i].value == inner.values.value[i].value.valueExpression
    ensures CreateExpression(inner.values.value[i].value.valueExpression) == None
  {
  }

  /** A concrete instance: the same blank text is dropped as a header and kept
      as a value expression. */
  lemma BlankHeaderVersusBlankValue()
    ensures
      var vs := [Some(JsonPathValueExpression(Some("hr"), Some(" \t"), true))];
      var t := JsonPathContentTemplate(Some(""), Some(" \t"), None, None, None, None, None, Some(vs));
      Adapt(t) == Ok(CalculatedFunctionContentTemplate(
        Some(""), None, None, None, None, None, None,
        [CalculatedFunctionValueExpression(Some("hr"), Some(" \t"), JsonPath, true)]))
  {
    var vs := [Some(JsonPathValueExpression(Some("hr"), Some(" \t"), true))];
    var t := JsonPathContentTemplate(Some(""), Some(" \t"), None, None, None, None, None, Some(vs));
    assert IsWhiteSpace(" \t"[0]) && IsWhiteSpace(" \t"[1]);
    assert CreateExpression(Some(" \t")) == None;
    var ps := ProjectValues(Some(vs));
    assert ps.Ok? && |ps.value| == 1;
    assert ps.value == [CalculatedFunctionValueExpression(Some("hr"), Some(" \t"), JsonPath, true)];
  }

  /** Every expression the facade creates carries the JSONPath language, and
      every header expression it creates has non-blank text. */
  lemma AdaptWellFormed(inner: JsonPathContentTemplate)
    requires Adapt(inner).Ok?
    ensures AllJsonPath(Adapt(inner).value)
    ensures WellFormed(Adapt(inner).value)
  {
  }

  /** A blank header string and a null one are indistinguishable after
      adaptation. */
  lemma BlankHeadersAreAbsent(inner: JsonPathContentTemplate)
    ensures Adapt(CollapseHeaders(inner)) == Adapt(inner)
    ensures Adapt(inner).Ok? ==> Unadapt(Adapt(inner).value) == CollapseHeaders(inner).(values := inner.values)
  {
    if Adapt(inner).Ok? {
      UnadaptAdapt(CollapseHeaders(inner));
    }
  }

  /** Reading back the text of a created expression undoes CreateExpression,
      up to blank strings collapsing to null. */
  lemma ExpressionTextOfCreate(value: Option<string>)
    ensures ExpressionText(CreateExpression(value)) == Collapse(value)
    ensures HeaderNormal(value) ==> ExpressionText(CreateExpression(value)) == value
  {
  }

  /** Adapting and translating back gives the simple template again when no
      header string is blank and no value entry is null. */
  lemma UnadaptAdapt(inner: JsonPathContentTemplate)
    requires Normal(inner)
    ensures Adapt(inner).Ok?
    ensures Unadapt(Adapt(inner).value) == inner
  {
    var c := Adapt(inner).value;
    var vs := inner.values.value;
    var back := Unadapt(c).values.value;
    assert |back| == |vs|;
    forall i | 0 <= i < |vs| ensures back[i] == vs[i] {
      ValuesInOrder(inner, i);
    }
    assert back == vs;
    ExpressionTextOfCreate(inner.typeMatchExpression);
    ExpressionTextOfCreate(inner.deviceIdExpression);
    ExpressionTextOfCreate(inner.patientIdExpression);
    ExpressionTextOfCreate(inner.encounterIdExpression);
    ExpressionTextOfCreate(inner.timestampExpression);
    ExpressionTextOfCreate(inner.correlationIdExpression);
  }

  /** Translating a well-formed canonical template back and adapting it again
      gives the same canonical template. */
  lemma AdaptUnadapt(c: CalculatedFunctionContentTemplate)
    requires WellFormed(c)
    ensures Adapt(Unadapt(c)) == Ok(c)
  {
    var s := Unadapt(c);
    var r := Adapt(s);
    assert r.Ok?;
    forall i | 0 <= i < |c.values| ensures r.value.values[i] == c.values[i] {
      ValuesInOrder(s, i);
    }
    assert r.value.values == c.values;
  }
}
