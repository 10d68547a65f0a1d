/**
 * The four values every authenticated request carries: the three ASP.NET
 * state tokens and the student's hidden id (the `PayloadData` interface).
 */
module Tokens {
  import opened Dom

  const ViewStateField := "__VIEWSTATE"
  const ViewStateGeneratorField := "__VIEWSTATEGENERATOR"
  const EventValidationField := "__EVENTVALIDATION"
  const StudentIdField := "ctl00$ctl00$MCPH1$SCPH$hdnStudentId"

  datatype PayloadData = PayloadData(
    viewState: string,
    viewStateGenerator: string,
    eventValidation: string,
    hdnStudentId: string)

  /**
   * The payload read from a page's hidden inputs (the landing page read
   * after login): each field is its input's value when that is non-empty,
   * and `""` otherwise.
   */
  function ExtractPayload(page: Inputs): (p: PayloadData)
    ensures ViewStateField in page && page[ViewStateField] != "" ==> p.viewState == page[ViewStateField]
    ensures ViewStateGeneratorField in page && page[ViewStateGeneratorField] != "" ==> p.viewStateGenerator == page[ViewStateGeneratorField]
    ensures EventValidationField in page && page[EventValidationField] != "" ==> p.eventValidation == page[EventValidationField]
    ensures StudentIdField in page && page[StudentIdField] != "" ==> p.hdnStudentId == page[StudentIdField]
    ensures ViewStateField !in page ==> p.viewState == ""
    ensures ViewStateGeneratorField !in page ==> p.viewStateGenerator == ""
    ensures EventValidationField !in page ==> p.eventValidation == ""
    ensures StudentIdField !in page ==> p.hdnStudentId == ""
  {
    PayloadData(
      Value(page, ViewStateField),
      Value(page, ViewStateGeneratorField),
      Value(page, EventValidationField),
      Value(page, StudentIdField))
  }

  /** The hidden inputs a page carrying `p` renders. */
  function RenderPayload(p: PayloadData): Inputs {
    map[ViewStateField := p.viewState,
        ViewStateGeneratorField := p.viewStateGenerator,
        EventValidationField := p.eventValidation,
        StudentIdField := p.hdnStudentId]
  }

  /** Extraction reads back exactly the payload a page rendered. */
  lemma ExtractRendered(p: PayloadData)
    ensures ExtractPayload(RenderPayload(p)) == p
  {
  }
}
