/** The observable event contract shared by recorder, adapter and assembler. */
module Trace {
  import opened Options
  import opened Json

  datatype EventType =
    | ModelRequest | ModelResponse | ToolCall | ToolResult
    | SandboxStarted | SandboxCommand | SandboxFinished
    | VerificationStarted | VerificationFinished | EpisodeFinished
    | HarnessDecision | ContextSelected | ContextCompacted | RetryScheduled | TerminationDecided

  datatype Status = Started | Succeeded | Failed | Error | Timeout | Cancelled | Unknown

  datatype Event = Event(
    eventId: string, runId: string, episodeId: string, spanId: string, parent: Option<string>,
    sequence: nat, timestamp: int, kind: EventType, status: Status,
    attributes: Fields, artifactRefs: seq<string>)

  predicate Text(s: string) {
    exists i :: 0 <= i < |s| && !Blank(s[i])
  }

  /** The checks of the event constructor. */
  predicate ValidEvent(e: Event) {
    && Text(e.eventId) && Text(e.runId) && Text(e.episodeId) && Text(e.spanId)
    && (e.parent.Some? ==> Text(e.parent.value) && e.parent.value != e.spanId)
    && (forall i :: 0 <= i < |e.artifactRefs| ==> Text(e.artifactRefs[i]))
    && (forall i, j :: 0 <= i < j < |e.artifactRefs| ==> e.artifactRefs[i] != e.artifactRefs[j])
  }

  // ---------------------------------------------------------------- redaction

  /** `redact_secrets` with the test for credential keys as a parameter. */
  function Redact(value: Json, secret: string -> bool): Json {
    match value
    case Arr(items) => Arr(RedactItems(items, secret))
    case Obj(fields) => Obj(RedactFields(fields, secret))
    case _ => value
  }

  function RedactItems(items: Items, secret: string -> bool): Items {
    match items
    case NoItems => NoItems
    case Item(v, more) => Item(Redact(v, secret), RedactItems(more, secret))
  }

  const REDACTED := Str("[REDACTED]")

  function RedactFields(fields: Fields, secret: string -> bool): Fields {
    match fields
    case NoFields => NoFields
    case Field(k, v, rest) => Field(k, if secret(k) then REDACTED else Redact(v, secret), RedactFields(rest, secret))
  }

  /** The two values differ only in what stands under credential keys. */
  predicate SameOutsideSecrets(a: Json, b: Json, secret: string -> bool) {
    match (a, b)
    case (Arr(x), Arr(y)) => SameItems(x, y, secret)
    case (Obj(x), Obj(y)) => SameFields(x, y, secret)
    case _ => a == b
  }

  predicate SameItems(a: Items, b: Items, secret: string -> bool) {
    match (a, b)
    case (NoItems, NoItems) => true
    case (Item(v, x), Item(w, y)) => SameOutsideSecrets(v, w, secret) && SameItems(x, y, secret)
    case _ => false
  }

  predicate SameFields(a: Fields, b: Fields, secret: string -> bool) {
    match (a, b)
    case (NoFields, NoFields) => true
    case (Field(k, v, x), Field(l, w, y)) => k == l && (secret(k) || SameOutsideSecrets(v, w, secret))
      && SameFields(x, y, secret)
    case _ => false
  }

  /** Redaction hides exactly what stands under credential keys: nothing of it survives, and nothing else is lost. */
  lemma {:induction false} RedactionHidesExactlySecrets(a: Json, b: Json, secret: string -> bool)
    ensures Redact(a, secret) == Redact(b, secret) <==> SameOutsideSecrets(a, b, secret)
  {
    match (a, b)
    case (Arr(x), Arr(y)) => ItemsHideExactlySecrets(x, y, secret);
    case (Obj(x), Obj(y)) => FieldsHideExactlySecrets(x, y, secret);
    case _ =>
  }

  lemma {:induction false} ItemsHideExactlySecrets(a: Items, b: Items, secret: string -> bool)
    ensures RedactItems(a, secret) == RedactItems(b, secret) <==> SameItems(a, b, secret)
  {
    match (a, b)
    case (Item(v, x), Item(w, y)) =>
      RedactionHidesExactlySecrets(v, w, secret);
      ItemsHideExactlySecrets(x, y, secret);
    case _ =>
  }

  lemma {:induction false} FieldsHideExactlySecrets(a: Fields, b: Fields, secret: string -> bool)
    ensures RedactFields(a, secret) == RedactFields(b, secret) <==> SameFields(a, b, secret)
  {
    match (a, b)
    case (Field(k, v, x), Field(l, w, y)) =>
      RedactionHidesExactlySecrets(v, w, secret);
      FieldsHideExactlySecrets(x, y, secret);
    case _ =>
  }
}
