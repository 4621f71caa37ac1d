# JSONPath calculated-function template facade

This project models the template adapter of the IoMT FHIR connector's
normalization stage: `JsonPathCalculatedFunctionContentTemplateFacade`. The
adapter takes a simple JSONPath content template (a type name, six header
expression strings and a list of value definitions) and presents it as a
calculated-function content template, the canonical shape the normalization
engine evaluates.

The translation is pure, so the model is a set of functions and lemmas:

- `wrappers.dfy`: `Option` (a C# `null` reference is `None`) and `Result`
  (an exception thrown from the constructor is `Err`).
- `dotnet_text.dfy`: `char.IsWhiteSpace` and `string.IsNullOrWhiteSpace`. The
  second is written as the left-to-right scan the library performs and proved
  equal to "null, or every character is white space".
- `content_templates.dfy`: the record shapes read and written. These are the
  simple template with its value definitions, the canonical template with its
  value expressions, and `Expression` (text plus query language).
- `calculated_function_facade.dfy`: `CreateExpression`, the projection of
  `Values`, `Adapt` (the constructor body) and `NewFacade` (the constructor
  with its null guard), and the lemmas about them. These include an inverse
  translation `Unadapt`, with round-trip lemmas in both directions. Together
  they show that `Adapt` is a bijection between simple templates with no blank
  header and no null value entry, and canonical templates satisfying
  `WellFormed`.

Where the system's design description and the code disagree, the model
follows the code:

- The design calls the adapter total. The code throws for a null inner
  template (the argument guard), for a null `Values` list (LINQ `Select`) and
  for a null entry of `Values` (the entry is dereferenced in the projection
  lambda). All three are `Err` results here.
- The design says an expression is never blank. The code copies a blank or
  whitespace-only value expression verbatim. Only header strings are
  blank-filtered; `BlankValueExpressionKept` states this.
- The design says the timestamp expression is always present. The code turns
  a blank timestamp string into `null` like any other header, and the model
  does the same.

## Model

| member | source | states |
|---|---|---|
| DotNetText.AllWhiteSpace | src/lib/Microsoft.Health.Fhir.Ingest.Template/CalculatedFunction/JsonPathCalculatedFunctionContentTemplateFacade.cs:39 | the character scan behind the blank test is true exactly when every character of the string is white space |
| DotNetText.IsNullOrWhiteSpace | src/lib/Microsoft.Health.Fhir.Ingest.Template/CalculatedFunction/JsonPathCalculatedFunctionContentTemplateFacade.cs:39 | the blank test holds exactly for null or all-white-space strings, so it holds for the empty string; it fails exactly when some character is not white space |
| CalculatedFunctionFacade.CreateExpression | src/lib/Microsoft.Health.Fhir.Ingest.Template/CalculatedFunction/JsonPathCalculatedFunctionContentTemplateFacade.cs:37-45 | an expression is returned exactly when the input is non-null and holds a non-white-space character; its text is the input and its language is JsonPath; otherwise the result is null |
| CalculatedFunctionFacade.ProjectValues | src/lib/Microsoft.Health.Fhir.Ingest.Template/CalculatedFunction/JsonPathCalculatedFunctionContentTemplateFacade.cs:25-32 | a null list raises ValuesNull, and a null entry raises ValueEntryNull; otherwise the output has the same length, and entry i has entry i's name, expression text and required flag, in JsonPath |
| CalculatedFunctionFacade.Adapt | src/lib/Microsoft.Health.Fhir.Ingest.Template/CalculatedFunction/JsonPathCalculatedFunctionContentTemplateFacade.cs:18-32 | succeeds exactly when Values and all its entries are non-null; the type name is copied verbatim and Values keeps its length |
| CalculatedFunctionFacade.NewFacade | src/lib/Microsoft.Health.Fhir.Ingest.Template/CalculatedFunction/JsonPathCalculatedFunctionContentTemplateFacade.cs:14-35 | a null inner template is rejected with InnerTemplateNull and nothing else is; a built facade's InnerTemplate is the template passed in, and its canonical template is the adapted one |
| CalculatedFunctionFacade.HeaderExpressions | src/lib/Microsoft.Health.Fhir.Ingest.Template/CalculatedFunction/JsonPathCalculatedFunctionContentTemplateFacade.cs:19-24 | each of the six header expressions is CreateExpression of the inner field with the same name |
| CalculatedFunctionFacade.FieldsNotCrossWired | src/lib/Microsoft.Health.Fhir.Ingest.Template/CalculatedFunction/JsonPathCalculatedFunctionContentTemplateFacade.cs:18-24 | changing one inner header field (or the type name) changes only the same-named output field; the type name passes through unchanged, empty or not |
| CalculatedFunctionFacade.ValuesInOrder | src/lib/Microsoft.Health.Fhir.Ingest.Template/CalculatedFunction/JsonPathCalculatedFunctionContentTemplateFacade.cs:25-32 | the output Values has the inner length; element i has inner element i's name, value expression as text, required flag, and JsonPath |
| CalculatedFunctionFacade.BlankValueExpressionKept | src/lib/Microsoft.Health.Fhir.Ingest.Template/CalculatedFunction/JsonPathCalculatedFunctionContentTemplateFacade.cs:25-45 | a blank or null value expression is copied as it is, while CreateExpression would have turned the same string into null |
| CalculatedFunctionFacade.BlankHeaderVersusBlankValue | src/lib/Microsoft.Health.Fhir.Ingest.Template/CalculatedFunction/JsonPathCalculatedFunctionContentTemplateFacade.cs:18-32 | concrete case: an empty type name is kept, a " \t" type-match string becomes null, and the same " \t" as a value expression is kept |
| CalculatedFunctionFacade.AdaptWellFormed | src/lib/Microsoft.Health.Fhir.Ingest.Template/CalculatedFunction/JsonPathCalculatedFunctionContentTemplateFacade.cs:19-45 | every header and value expression the facade creates is in JsonPath, and every header expression it creates has non-blank text |
| CalculatedFunctionFacade.ExpressionTextOfCreate | src/lib/Microsoft.Health.Fhir.Ingest.Template/CalculatedFunction/JsonPathCalculatedFunctionContentTemplateFacade.cs:37-45 | reading back a created expression's text gives the input with blank strings collapsed to null, and the input itself when it is not blank |
| CalculatedFunctionFacade.BlankHeadersAreAbsent | src/lib/Microsoft.Health.Fhir.Ingest.Template/CalculatedFunction/JsonPathCalculatedFunctionContentTemplateFacade.cs:19-45 | replacing every blank header string by null does not change the adapted template; the inverse recovers the inner template with blank headers collapsed |
| CalculatedFunctionFacade.UnadaptAdapt | src/lib/Microsoft.Health.Fhir.Ingest.Template/CalculatedFunction/JsonPathCalculatedFunctionContentTemplateFacade.cs:18-32 | if no header string is blank and no value entry is null, adaptation succeeds and the inverse gives back the inner template exactly |
| CalculatedFunctionFacade.AdaptUnadapt | src/lib/Microsoft.Health.Fhir.Ingest.Template/CalculatedFunction/JsonPathCalculatedFunctionContentTemplateFacade.cs:18-45 | every well-formed canonical template is adapted from its inverse, so WellFormed is exactly the adapter's image |

## Left out

- `InnerTemplate` identity: C# keeps a reference to the very object passed in. The model keeps an equal value. A datatype cannot be reassigned, which matches the private setter that is used only in the constructor.
- The base classes `CalculatedFunctionContentTemplate`, `Expression` and `CalculatedFunctionValueExpression`, the inner `JsonPathContentTemplate`, and the `ExpressionLanguage` enum are not part of this model. Only the fields the facade reads and writes are modelled. The enum is taken as `JsonPath | JmesPath`.
- `char.IsWhiteSpace` is library code and is not part of this model. `DotNetText.IsWhiteSpace` follows its documented character set (U+0009 to U+000D, U+0085, and Unicode categories Zs, Zl and Zp). C# strings are UTF-16; every white-space character is in the Basic Multilingual Plane, so testing Unicode scalar values gives the same answer.
- The exception types and messages are not modelled; only which guard fails is kept (`FacadeError`).
- `JsonPathExpressionEvaluator` is left out. It is a thin wrapper over a JSONPath engine that is not part of this model: it selects tokens and turns the engine's JSON exceptions into template exceptions.
- Template matching, extraction, multi-value expansion, required-value dropping and metric counting are left out. The normalization service that does them is not part of this model. So the design's round trip "adapt then extract equals extract from a hand-built template" cannot be stated; the nearest statement is `AdaptUnadapt`/`UnadaptAdapt`.
- The telemetry metric descriptors and the console host (blob-bound template text, Event Hub producer, event property copying) are left out. They are I/O and depend on library helpers that are not part of this model.
