/** The client-side credential check of the HR login page. */
module Auth {
  /** `isValidCredentials(username, password)`: exact, case-sensitive match of one fixed pair. */
  function IsValidCredentials(username: string, password: string): bool {
    username == "HRSRCE" && password == "@SRCEhr1314"
  }

  lemma AcceptsHrPair()
    ensures IsValidCredentials("HRSRCE", "@SRCEhr1314")
  {
  }

  lemma AcceptsOnlyHrPair(username: string, password: string)
    requires IsValidCredentials(username, password)
    ensures username == "HRSRCE" && password == "@SRCEhr1314"
  {
  }

  lemma RejectsOtherUsername(username: string, password: string)
    requires username != "HRSRCE"
    ensures !IsValidCredentials(username, password)
  {
  }

  lemma RejectsOtherPassword(username: string, password: string)
    requires password != "@SRCEhr1314"
    ensures !IsValidCredentials(username, password)
  {
  }

  /** No case folding: the lower-case username is a different string. */
  lemma CaseSensitive()
    ensures !IsValidCredentials("hrsrce", "@SRCEhr1314")
  {
  }
}
