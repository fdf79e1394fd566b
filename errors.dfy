/**
  The crate's error record (src/errors.rs): a description, an optional
  human explanation, an optional source error and an optional captured
  command output, with builders that each set one field.

  The Rust `source` is an `anyhow::Error`: either an error of a foreign
  library (modelled by the text its `Display` prints) or an `Error` of this
  crate that was wrapped by `with_context`.
 */
module Errors {
  import opened Maybe

  datatype Source = Foreign(message: string) | Nested(error: Error)

  datatype Error = Error(
    description: string,
    explanation: Option<string>,
    source: Option<Source>,
    output: Option<string>)

  /** `crate::Result<T>`. */
  datatype Result<T> = Ok(value: T) | Err(error: Error)

  function New(description: string): (e: Error)
    ensures e.description == description
    ensures e.explanation == None && e.source == None && e.output == None
  {
    Error(description, None, None, None)
  }

  function WithSource(e: Error, source: Source): (e': Error)
    ensures e'.source == Some(source)
    ensures e'.description == e.description && e'.explanation == e.explanation && e'.output == e.output
  {
    e.(source := Some(source))
  }

  function FromSource(source: Source): (e: Error)
    ensures e.description == "" && e.source == Some(source)
    ensures e.explanation == None && e.output == None
  {
    WithSource(New(""), source)
  }

  function WithExplanation(e: Error, explanation: string): (e': Error)
    ensures e'.explanation == Some(explanation)
    ensures e'.description == e.description && e'.source == e.source && e'.output == e.output
  {
    e.(explanation := Some(explanation))
  }

  function WithOutput(e: Error, output: string): (e': Error)
    ensures e'.output == Some(output)
    ensures e'.description == e.description && e'.explanation == e.explanation && e'.source == e.source
  {
    e.(output := Some(output))
  }

  /**
    Fills an empty description in place, or else makes `e` the source of a
    fresh error described by `description`.
   */
  function WithContext(e: Error, description: string): (e': Error)
    ensures e.description == "" ==> e' == e.(description := description)
    ensures e.description != "" ==> e' == Error(description, None, Some(Nested(e)), None)
  {
    if e.description == "" then
      e.(description := description)
    else
      WithSource(New(description), Nested(e))
  }

  /** `ErrorContext::with_context` on a `Result`. */
  function ResultWithContext<T>(r: Result<T>, description: string): (r': Result<T>)
    ensures r.Ok? ==> r' == r
    ensures r.Err? ==> r' == Err(WithContext(r.error, description))
  {
    match r
    case Ok(_) => r
    case Err(e) => Err(WithContext(e, description))
  }

  /** `ErrorContext::with_full_context` on a `Result`. */
  function ResultWithFullContext<T>(r: Result<T>, description: string, explanation: string): (r': Result<T>)
    ensures r.Ok? ==> r' == r
    ensures r.Err? ==> r'.Err? && r'.error.description == description
    ensures r.Err? ==> r'.error.explanation == Some(explanation)
    ensures r.Err? ==> r'.error.source == if r.error.description == "" then r.error.source else Some(Nested(r.error))
    ensures r.Err? ==> r'.error.output == if r.error.description == "" then r.error.output else None
  {
    match r
    case Ok(_) => r
    case Err(e) => Err(WithExplanation(WithContext(e, description), explanation))
  }

  /** What `write!(f, "{}", error)` prints. The output is never printed. */
  function Display(e: Error): string
    decreases e, 1
  {
    e.description
    + (match e.source
       case None => ""
       case Some(s) => ": " + SourceDisplay(s))
    + (match e.explanation
       case None => ""
       case Some(x) => "\n\n" + x)
  }

  function SourceDisplay(s: Source): string
    decreases s, 0
  {
    match s
    case Foreign(message) => message
    case Nested(inner) => Display(inner)
  }

  /** How many crate errors are chained below `e` through `Nested` sources. */
  function Depth(e: Error): nat
  {
    match e.source
    case Some(Nested(inner)) => 1 + Depth(inner)
    case _ => 0
  }

  lemma DisplayNew(description: string)
    ensures Display(New(description)) == description
  {
  }

  lemma DisplayIgnoresOutput(e: Error, output: string)
    ensures Display(WithOutput(e, output)) == Display(e)
  {
  }

  /** The builders that set one field each overwrite what was there. */
  lemma BuildersOverwrite(e: Error, a: string, b: string, s: Source, t: Source)
    ensures WithExplanation(WithExplanation(e, a), b) == WithExplanation(e, b)
    ensures WithOutput(WithOutput(e, a), b) == WithOutput(e, b)
    ensures WithSource(WithSource(e, s), t) == WithSource(e, t)
  {
  }

  /** The builders touch disjoint fields, so their order does not matter. */
  lemma BuildersCommute(e: Error, x: string, o: string, s: Source)
    ensures WithExplanation(WithOutput(e, o), x) == WithOutput(WithExplanation(e, x), o)
    ensures WithExplanation(WithSource(e, s), x) == WithSource(WithExplanation(e, x), s)
    ensures WithOutput(WithSource(e, s), o) == WithSource(WithOutput(e, o), s)
  {
  }

  /**
    Adding context prints the new description in front of the old text;
    only when the old description was non-empty is the separator `": "`
    inserted (because the old error becomes the source).
   */
  lemma DisplayWithContext(e: Error, description: string)
    ensures e.description == "" ==> Display(WithContext(e, description)) == description + Display(e)
    ensures e.description != "" ==> Display(WithContext(e, description)) == description + ": " + Display(e)
  {
  }

  /** Adding context nests one level deeper exactly when the description was already set. */
  lemma DepthWithContext(e: Error, description: string)
    ensures Depth(WithContext(e, description)) == if e.description == "" then Depth(e) else Depth(e) + 1
  {
  }

  /**
    The idiom used throughout the pipeline,
    `Err(Error::from_source(s)).with_full_context(d, x)`, is one level deep:
    description `d`, source `s`, explanation `x`, no output.
   */
  lemma FullContextOfForeignError<T>(s: Source, description: string, explanation: string)
    ensures ResultWithFullContext(Result<T>.Err(FromSource(s)), description, explanation)
         == Err(Error(description, Some(explanation), Some(s), None))
    ensures Display(ResultWithFullContext(Result<T>.Err(FromSource(s)), description, explanation).error)
         == description + ": " + SourceDisplay(s) + "\n\n" + explanation
  {
  }
}
