/** The captured flow, reduced to the fields the modelled components read. */
module Domain {
  import opened Text

  const DIGEST_LENGTH := 32

  /** An MD5 digest in hexadecimal; the witness is that of the empty body. */
  type Digest = s: string | |s| == DIGEST_LENGTH witness "d41d8cd98f00b204e9800998ecf8427e"

  /** `method` is the text of the HTTP method. `bodyDigest` is the hexadecimal MD5
      of the request body, computed by an outside library; headers and cookies are
      listed in key order, as their `BTreeMap`s iterate. */
  datatype HttpFlow = HttpFlow(
    id: string,
    timestamp: int,
    httpMethod: string,
    host: string,
    path: string,
    fullUrl: string,
    requestHeaders: seq<(string, string)>,
    requestBody: Option<string>,
    bodyDigest: Digest,
    responseStatus: nat,
    responseBody: Option<string>,
    contentType: string)

  function Fingerprint(flow: HttpFlow): string {
    "HttpMethod." + flow.httpMethod + ":" + flow.path + ":" + flow.bodyDigest
  }

  function Fingerprints(flows: seq<HttpFlow>): (r: seq<string>)
    ensures |r| == |flows|
    ensures forall i | 0 <= i < |flows| :: r[i] == Fingerprint(flows[i])
  {
    seq(|flows|, i requires 0 <= i < |flows| => Fingerprint(flows[i]))
  }
}
