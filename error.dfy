/**
 * The error value of the firmware wrapper: a non-success status together
 * with a payload.
 */
module Errors {
  import opened StatusCodes

  /**
   * An error carrying `status` and a payload `data`. Only `New` (and
   * `FromStatus`, which uses it) should build one; `Valid` is the invariant
   * they establish.
   */
  datatype Error<Data> = Error(status: Status, data: Data) {
    predicate Valid() {
      status != SUCCESS
    }
  }

  /** Builds an error; calling it with SUCCESS is a programming error. */
  function New<Data>(status: Status, data: Data): (e: Error<Data>)
    requires status != SUCCESS
    ensures e.Valid()
    ensures StatusOf(e) == status && DataOf(e) == data
  {
    Error(status, data)
  }

  /** `status()`: the status of a valid error is never SUCCESS, and it and the payload make up the error. */
  function StatusOf<Data>(e: Error<Data>): (s: Status)
    ensures e.Valid() ==> s != SUCCESS
    ensures Error(s, e.data) == e
  {
    e.status
  }

  /** `data()`: the payload, which together with the status makes up the error. */
  function DataOf<Data>(e: Error<Data>): (d: Data)
    ensures Error(e.status, d) == e
  {
    e.data
  }

  /** Takes an error apart; `New` puts it back together unchanged. */
  function Split<Data>(e: Error<Data>): (parts: (Status, Data))
    requires e.Valid()
    ensures parts.0 != SUCCESS
    ensures New(parts.0, parts.1) == e
  {
    (e.status, e.data)
  }

  /** The payload-free error that stands for a raw non-success status. */
  function FromStatus(status: Status): (e: Error<()>)
    requires status != SUCCESS
    ensures e.Valid() && StatusOf(e) == status
  {
    New(status, ())
  }

  /**
   * Display text of an error: "UEFI Error ", the status as the status type
   * displays it, ": ", then the payload's debug text. How a status and a
   * payload are rendered is outside this model and comes in as parameters.
   */
  function Display<Data>(e: Error<Data>, showStatus: Status -> string, debugData: Data -> string): (text: string)
    ensures |text| == |"UEFI Error "| + |showStatus(e.status)| + 2 + |debugData(e.data)|
    ensures text[..11] == "UEFI Error "
    ensures text[11..11 + |showStatus(e.status)|] == showStatus(e.status)
    ensures text[11 + |showStatus(e.status)|..|text| - |debugData(e.data)|] == ": "
    ensures text[|text| - |debugData(e.data)|..] == debugData(e.data)
  {
    "UEFI Error " + showStatus(e.status) + ": " + debugData(e.data)
  }

  /** The accessors give back exactly what `New` was given. */
  lemma NewThenAccessors<Data>(status: Status, data: Data)
    requires status != SUCCESS
    ensures StatusOf(New(status, data)) == status
    ensures DataOf(New(status, data)) == data
    ensures Split(New(status, data)) == (status, data)
  {
  }

  /** The conversion from a status loses nothing: distinct statuses give distinct errors. */
  lemma FromStatusInjective(a: Status, b: Status)
    requires a != SUCCESS && b != SUCCESS
    ensures FromStatus(a) == FromStatus(b) <==> a == b
  {
    assert StatusOf(FromStatus(a)) == a && StatusOf(FromStatus(b)) == b;
  }

  /** Equality of errors is field by field. */
  lemma EqualityIsStructural<Data>(a: Error<Data>, b: Error<Data>)
    ensures a == b <==> StatusOf(a) == StatusOf(b) && DataOf(a) == DataOf(b)
  {
  }

  /**
   * Two errors with the same status display alike only if their payloads
   * have the same debug text: the display keeps the payload text intact.
   */
  lemma DisplayKeepsPayload<Data>(a: Error<Data>, b: Error<Data>, showStatus: Status -> string, debugData: Data -> string)
    requires a.status == b.status
    requires Display(a, showStatus, debugData) == Display(b, showStatus, debugData)
    ensures debugData(a.data) == debugData(b.data)
  {
    var ta := Display(a, showStatus, debugData);
    var n := |ta| - |"UEFI Error "| - |showStatus(a.status)| - 2;
    assert |debugData(a.data)| == n == |debugData(b.data)|;
  }
}
