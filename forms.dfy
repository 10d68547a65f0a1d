/**
 * Form bodies. A `URLSearchParams` filled by successive `append` calls is
 * modelled as the value `FormData`: either no field yet, or an earlier body
 * followed by one more field. `Append` adds a field at the end, so a body
 * reads in the source's append order.
 */
module Forms {
  import opened Wrappers
  import opened Tokens

  datatype FormData = NoFields | Field(before: FormData, key: string, value: string) {

    /** The `name=value` pairs in the order they are sent. */
    function Pairs(): seq<(string, string)> {
      match this
      case NoFields => []
      case Field(before, key, value) => before.Pairs() + [(key, value)]
    }

    /** `params.get(name)`: the value of the first pair with that name. */
    function Get(name: string): Option<string> {
      match this
      case NoFields => None
      case Field(before, key, value) =>
        if before.Get(name).Some? then before.Get(name)
        else if key == name then Some(value)
        else None
    }

    /** `params.append(key, value)` */
    function Append(key: string, value: string): (f: FormData)
      ensures f.Pairs() == Pairs() + [(key, value)]
      ensures forall name {:trigger f.Get(name)} ::
        f.Get(name) == if Get(name).Some? then Get(name) else if name == key then Some(value) else None
    {
      Field(this, key, value)
    }

    /** The body starts with the three state tokens of `p`, verbatim. */
    predicate EchoesTokens(p: PayloadData) {
      var pairs := Pairs();
      |pairs| >= 3
      && pairs[0] == (ViewStateField, p.viewState)
      && pairs[1] == (ViewStateGeneratorField, p.viewStateGenerator)
      && pairs[2] == (EventValidationField, p.eventValidation)
    }
  }

  /** `new URLSearchParams()` */
  const EmptyForm := NoFields

  /** Fixed fields the student pages send with every postback. */
  const SchoolMasterField := "ctl00$ctl00$hdnForSchoolMaster"
  const CaseCssField := "ctl00$ctl00$txtCaseCSS"
  const ViewStateEncryptedField := "__VIEWSTATEENCRYPTED"
}
