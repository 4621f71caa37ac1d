/** The record shapes the facade reads and writes. Only the fields the facade
    touches are modelled; every C# `string` property may hold `null`, so each
    is an `Option<string>`. */
module ContentTemplates {
  import opened Wrappers

  /** The query languages an expression can be written in. */
  datatype ExpressionLanguage = JsonPath | JmesPath

  /** An expression: its query text and the language it is written in. */
  datatype Expression = Expression(value: string, language: ExpressionLanguage)

  /** One value definition of the simple JSONPath template. */
  datatype JsonPathValueExpression = JsonPathValueExpression(
    valueName: Option<string>,
    valueExpression: Option<string>,
    required: bool)

  /** The simple JSONPath content template: a type name, six header
      expression strings and a list of value definitions. The list itself and
      each of its entries may be `null`. */
  datatype JsonPathContentTemplate = JsonPathContentTemplate(
    typeName: Option<string>,
    typeMatchExpression: Option<string>,
    deviceIdExpression: Option<string>,
    patientIdExpression: Option<string>,
    encounterIdExpression: Option<string>,
    timestampExpression: Option<string>,
    correlationIdExpression: Option<string>,
    values: Option<seq<Option<JsonPathValueExpression>>>)

  /** One value definition of the canonical template: an expression (its
      `value` text and `language`) that also carries a name and a required
      flag. */
  datatype CalculatedFunctionValueExpression = CalculatedFunctionValueExpression(
    valueName: Option<string>,
    value: Option<string>,
    language: ExpressionLanguage,
    required: bool)

  /** The canonical calculated-function template. A header expression of
      `None` means "not applicable". */
  datatype CalculatedFunctionContentTemplate = CalculatedFunctionContentTemplate(
    typeName: Option<string>,
    typeMatchExpression: Option<Expression>,
    deviceIdExpression: Option<Expression>,
    patientIdExpression: Option<Expression>,
    encounterIdExpression: Option<Expression>,
    timestampExpression: Option<Expression>,
    correlationIdExpression: Option<Expression>,
    values: seq<CalculatedFunctionValueExpression>)
}
