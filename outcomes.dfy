/** What the event handlers of the pages do, as values: the database write a
    save handler issues (or the alert that stops it), and the navigation a
    search handler triggers. */
module Outcomes {
  import opened JsRecord

  /** The result of a save handler: rejected with an alert, a new document
      added, an existing document (addressed by its id) updated, or an
      exception thrown before any write. */
  datatype SaveOutcome =
    | Rejected(alert: string)
    | Added(payload: Record)
    | Updated(docId: JsValue, payload: Record)
    | Crashed

  /** The effect of a navigation handler: a new browser tab
      (`window.open(path, '_blank')`), a client-side route change
      (`router.push(path)`), or a blocking alert. */
  datatype Effect = OpenTab(path: string) | Navigate(path: string) | Alert(message: string)

  /** The hymnal has hymns 1 to 640; both hymn-number forms refuse other
      numbers with the same alert. */
  const HymnCount: int := 640
  const HymnNumberAlert: string := "Por favor, digite um número de hino válido (1 a 640)."

  /** Every named field is truthy; `!a || !b || !c` is its negation. */
  predicate Filled(r: Record, names: seq<string>) {
    forall k :: k in names ==> Truthy(Get(r, k))
  }
}
