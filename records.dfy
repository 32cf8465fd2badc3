/** A submission record as the records endpoint returns it: an object whose fields
    keep their insertion order, so that Object.keys and Object.values list them in
    the same order. Field values are held in their text form. */
module Records {
  import opened Wrappers

  datatype Field = Field(key: string, value: string)

  type Record = seq<Field>

  const CollegeNameKey: string := "college_name"

  /** `Object.keys(r)`. */
  function Keys(r: Record): seq<string> {
    seq(|r|, i requires 0 <= i < |r| => r[i].key)
  }

  /** `Object.values(r)`, in the same order as the keys. */
  function Values(r: Record): seq<string> {
    seq(|r|, i requires 0 <= i < |r| => r[i].value)
  }

  /** `r[key]`: the value of the first field named `key`, or None when `r` has no such field. */
  function Get(r: Record, key: string): (v: Option<string>)
    ensures v.None? <==> forall i :: 0 <= i < |r| ==> r[i].key != key
    ensures v.Some? ==> exists i :: 0 <= i < |r| && r[i] == Field(key, v.value)
  {
    if |r| == 0 then None
    else if r[0].key == key then Some(r[0].value)
    else Get(r[1..], key)
  }

  /** `r.college_name`. */
  function CollegeName(r: Record): Option<string> {
    Get(r, CollegeNameKey)
  }
}
