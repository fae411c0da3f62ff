/** getDeURNedValue: the display name of a reference field's URN. */
module DeUrn {
  import opened Common
  import opened Schema

  /** URNProcessor(syntax).deconstructURN(urn, false): the URN's parts, or None when it throws
      ExistException or UnderlyingStorageException. */
  type UrnDecoder = (string, string) -> Option<seq<string>>

  /** The de-URNed value of urn for field f: "" for an empty urn, a field without autocomplete
      instance or a decoding failure; part 5 of the decoded URN otherwise. A decoder result
      with fewer than six parts is an uncaught index error. */
  function GetDeUrnedValue(f: FieldSet, urn: string, dec: UrnDecoder): (r: Result<string>)
    requires f.Field?
    ensures r.Err? <==>
      urn != "" && f.autocomplete.Some? && dec(f.autocomplete.value, urn).Some? && |dec(f.autocomplete.value, urn).value| < 6
    ensures r.Err? ==> r.failure == UrnTooShort(urn)
    ensures r.Ok? && r.value != "" ==>
      urn != "" && f.autocomplete.Some? && dec(f.autocomplete.value, urn).Some?
      && dec(f.autocomplete.value, urn).value[5] == r.value
    ensures urn == "" || f.autocomplete.None? || dec(f.autocomplete.value, urn).None? ==> r == Ok("")
    ensures urn != "" && f.autocomplete.Some? && dec(f.autocomplete.value, urn).Some? &&
            |dec(f.autocomplete.value, urn).value| >= 6 ==>
              r == Ok(dec(f.autocomplete.value, urn).value[5])
  {
    if urn == "" then Ok("")
    else if f.autocomplete.Some? then
      match dec(f.autocomplete.value, urn)
      case None => Ok("")
      case Some(parts) => if |parts| > 5 then Ok(parts[5]) else Err(UrnTooShort(urn))
    else Ok("")
  }
}
