/** `fetch_ticker_summary`: the company description shown under the score, taken from the
    issuer metadata map with Python truthiness (a missing key and an empty string are alike). */
module TickerSummary {

  /** `info.get(key)` read as a string, with `None` read as the falsy "". */
  function Get(info: map<string, string>, key: string): string {
    if key in info then info[key] else ""
  }

  /** `a or b` on strings. */
  function Or(a: string, b: string): (r: string)
    ensures a != "" ==> r == a
    ensures a == "" ==> r == b
  {
    if a != "" then a else b
  }

  /** The one-line fallback "{name} | Sector: … | Industry: … | Country: …". */
  function Headline(name: string, sector: string, industry: string, country: string): string {
    name + " | Sector: " + sector + " | Industry: " + industry + " | Country: " + country
  }

  function FetchTickerSummary(info: map<string, string>): (r: string)
    ensures r != ""
    ensures Get(info, "longBusinessSummary") != "" ==> r == info["longBusinessSummary"]
    ensures (Get(info, "longBusinessSummary") == "" && Get(info, "shortBusinessSummary") != "")
            ==> r == info["shortBusinessSummary"]
  {
    var summary := Or(Get(info, "longBusinessSummary"), Get(info, "shortBusinessSummary"));
    if summary != "" then summary
    else
      var name := Or(Get(info, "longName"), Get(info, "shortName"));
      var sector := Or(Get(info, "sector"), "N/A");
      var industry := Or(Get(info, "industry"), "N/A");
      var country := Or(Get(info, "country"), "N/A");
      Headline(name, sector, industry, country)
  }

  /** A key whose value is the empty string behaves exactly as a missing key. */
  lemma EmptyIsMissing(info: map<string, string>, key: string)
    requires key in info && info[key] == ""
    ensures FetchTickerSummary(info) == FetchTickerSummary(info - {key})
  {
    forall k ensures Get(info, k) == Get(info - {key}, k) {
    }
  }

  /** With no description, the headline names every field, with "N/A" standing in for a
      missing sector, industry or country and the long name preferred over the short one. */
  lemma HeadlineFallback(info: map<string, string>)
    requires Get(info, "longBusinessSummary") == "" && Get(info, "shortBusinessSummary") == ""
    ensures FetchTickerSummary(info) == Headline(
              Or(Get(info, "longName"), Get(info, "shortName")),
              Or(Get(info, "sector"), "N/A"),
              Or(Get(info, "industry"), "N/A"),
              Or(Get(info, "country"), "N/A"))
  {
  }

  /** With an empty metadata map the summary is the all-"N/A" headline with an empty name. */
  lemma EmptyInfo()
    ensures FetchTickerSummary(map[]) == Headline("", "N/A", "N/A", "N/A")
  {
  }
}
