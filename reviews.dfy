/**
 * An input line of the review data set after `json.loads`: either text that
 * is not valid JSON, or an object whose string fields are given by name.
 */
module Reviews {
  import opened Wrappers

  datatype Line = Malformed | Record(fields: map<string, string>)

  /** `review[key]`: a missing key raises KeyError. */
  function Lookup(fields: map<string, string>, key: string): (r: Result<string>)
    ensures r.Success? <==> key in fields
    ensures r.Success? ==> r.value == fields[key]
    ensures r.Failure? ==> r.error == MissingKey(key)
  {
    if key in fields then Success(fields[key]) else Failure(MissingKey(key))
  }

  /** `review.get(key, '')`. */
  function GetOrEmpty(fields: map<string, string>, key: string): (r: string)
    ensures key in fields ==> r == fields[key]
    ensures key !in fields ==> r == ""
  {
    if key in fields then fields[key] else ""
  }
}
