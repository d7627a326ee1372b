// The allow-lists of the call-notification webhook and the error records it
// answers with (util/utils.go).

module Util {
  import opened JsonValue

  const ValidNetworkIDs: seq<string> := ["214001", "222010", "234015", "262002", "262009", "286002"]
  const ValidServiceIDs: seq<string> := ["antiSpam", "callForking", "callProtect", "volteRoaming", "verifiedBusiness"]

  /** Linear scan for an exact, case-sensitive match. */
  method StringInSlice(str: string, list: seq<string>) returns (found: bool)
    ensures found <==> exists i :: 0 <= i < |list| && list[i] == str
  {
    for i := 0 to |list|
      invariant forall j :: 0 <= j < i ==> list[j] != str
    {
      if list[i] == str {
        return true;
      }
    }
    return false;
  }

  /** A network and service pair the webhook serves. */
  predicate ValidNetworkAndService(networkID: string, serviceID: string)
  {
    networkID in ValidNetworkIDs && serviceID in ValidServiceIDs
  }

  method IsValidNetworkAndService(networkID: string, serviceID: string) returns (valid: bool)
    ensures valid <==> ValidNetworkAndService(networkID, serviceID)
  {
    var networkOk := StringInSlice(networkID, ValidNetworkIDs);
    var serviceOk := StringInSlice(serviceID, ValidServiceIDs);
    valid := networkOk && serviceOk;
  }

  /** The three fields of an error record, read back from its JSON form. */
  function ErrorFields(record: Json): ErrorRecord
  {
    if record.JObject? && "status" in record.fields && "title" in record.fields && "detail" in record.fields
       && record.fields["status"].JNumber? && record.fields["title"].JString? && record.fields["detail"].JString?
    then Record(record.fields["status"].n, record.fields["title"].s, record.fields["detail"].s)
    else NotAnErrorRecord
  }

  datatype ErrorRecord = Record(status: int, title: string, detail: string) | NotAnErrorRecord

  /** An error record with exactly the given status, title and detail, and that status. */
  function CustomErrorResponse(status: int, title: string, detail: string): (r: (Json, int))
    ensures r.1 == status
    ensures ErrorFields(r.0) == Record(status, title, detail)
    ensures r.0.JObject? && r.0.fields.Keys == {"status", "title", "detail"}
  {
    (JObject(map["status" := JNumber(status), "title" := JString(title), "detail" := JString(detail)]), status)
  }

  /** The record for an unexpected failure further down. */
  function Custom502Error(): (r: (Json, int))
    ensures r.1 == 502
    ensures ErrorFields(r.0) == Record(502, "Generic Error", "Unexpected status code 502")
  {
    CustomErrorResponse(502, "Generic Error", "Unexpected status code 502")
  }

  /** Matching is exact: a differently cased service name is refused. */
  lemma AllowListIsCaseSensitive()
    ensures ValidNetworkAndService("214001", "antiSpam")
    ensures !ValidNetworkAndService("214001", "AntiSpam")
  {
    assert ValidServiceIDs[0] == "antiSpam";
    assert "AntiSpam"[0] != "antiSpam"[0];
  }
}
