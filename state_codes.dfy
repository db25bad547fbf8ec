/** `state_mapping` and `convert_state_code_to_name` of project_files/utils/module.py:
    the two-letter codes of the fifty states and a lookup that ignores case. */
module StateCodes {
  import opened PyStr

  const StateMapping: map<string, string> := map[
    "AL" := "Alabama", "AK" := "Alaska", "AZ" := "Arizona", "AR" := "Arkansas", "CA" := "California",
    "CO" := "Colorado", "CT" := "Connecticut", "DE" := "Delaware", "FL" := "Florida", "GA" := "Georgia",
    "HI" := "Hawaii", "ID" := "Idaho", "IL" := "Illinois", "IN" := "Indiana", "IA" := "Iowa",
    "KS" := "Kansas", "KY" := "Kentucky", "LA" := "Louisiana", "ME" := "Maine", "MD" := "Maryland",
    "MA" := "Massachusetts", "MI" := "Michigan", "MN" := "Minnesota", "MS" := "Mississippi", "MO" := "Missouri",
    "MT" := "Montana", "NE" := "Nebraska", "NV" := "Nevada", "NH" := "New Hampshire", "NJ" := "New Jersey",
    "NM" := "New Mexico", "NY" := "New York", "NC" := "North Carolina", "ND" := "North Dakota", "OH" := "Ohio",
    "OK" := "Oklahoma", "OR" := "Oregon", "PA" := "Pennsylvania", "RI" := "Rhode Island", "SC" := "South Carolina",
    "SD" := "South Dakota", "TN" := "Tennessee", "TX" := "Texas", "UT" := "Utah", "VT" := "Vermont",
    "VA" := "Virginia", "WA" := "Washington", "WV" := "West Virginia", "WI" := "Wisconsin", "WY" := "Wyoming"
  ]

  const InvalidStateCode: string := "Invalid state code"

  /** `convert_state_code_to_name(state_code)`: `state_mapping.get(state_code.upper(),
      "Invalid state code")`. */
  function ConvertStateCodeToName(stateCode: string): (name: string)
    ensures name == InvalidStateCode || name in StateMapping.Values
  {
    if Upper(stateCode) in StateMapping then StateMapping[Upper(stateCode)] else InvalidStateCode
  }

  /** The lookup ignores case: "ca", "Ca" and "CA" give the same answer, because the code is
      upper-cased first. */
  lemma LowerCaseCodeSameName(stateCode: string)
    ensures ConvertStateCodeToName(Lower(stateCode)) == ConvertStateCodeToName(stateCode)
  {
    UpperOfLower(stateCode);
  }

  /** Upper-casing the code beforehand changes nothing either. */
  lemma UpperCaseCodeSameName(stateCode: string)
    ensures ConvertStateCodeToName(Upper(stateCode)) == ConvertStateCodeToName(stateCode)
  {
    UpperIdempotent(stateCode);
  }
}
