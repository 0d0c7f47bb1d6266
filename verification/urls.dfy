/** `build_full_url` (utils.py, lines 24-29): qualifying a Google News feed URL
    with a region and the English interface language. */
module Urls {
  import opened Wrappers
  import opened Text

  /** The parameters appended after the separator, for a given region. */
  function RegionQuery(region: string): string {
    "gl=" + region + "&hl=en"
  }

  /** A falsy region (`None` or `""`) leaves the URL as it is. Otherwise the
      region parameters are appended, after `&` when the URL already has a
      query string (contains `?`) and after `?` when it does not. */
  function BuildFullUrl(baseUrl: string, region: Option<string>): (r: string)
    ensures baseUrl <= r
    ensures !Truthy(region) ==> r == baseUrl
    ensures Truthy(region) ==> |r| == |baseUrl| + |region.value| + 10
    ensures Truthy(region) ==> r[|baseUrl|] == (if '?' in baseUrl then '&' else '?')
    ensures Truthy(region) ==> r[|baseUrl| + 1..] == RegionQuery(region.value)
  {
    if Truthy(region) then
      var separator := if '?' in baseUrl then '&' else '?';
      baseUrl + [separator] + RegionQuery(region.value)
    else
      baseUrl
  }

  /** The region can be read back from a qualified URL: it sits between the
      `gl=` after the base URL and the closing `&hl=en`, which the result
      always ends with. */
  lemma RegionReadsBack(baseUrl: string, region: string)
    requires region != ""
    ensures var r := BuildFullUrl(baseUrl, Some(region));
            && EndsWith(r, "&hl=en")
            && r[|baseUrl| + 4..|r| - 6] == region
  {
    var r := BuildFullUrl(baseUrl, Some(region));
    var q := r[|baseUrl| + 1..];
    assert q == "gl=" + region + "&hl=en";
    assert r[|r| - 6..] == q[|q| - 6..];
    assert r[|baseUrl| + 4..|r| - 6] == q[3..|q| - 6];
  }

  /** With a region the result always carries a query string, and it opens
      with `?` exactly when the base URL had none. */
  lemma QualifiedUrlHasQuery(baseUrl: string, region: string)
    requires region != ""
    ensures '?' in BuildFullUrl(baseUrl, Some(region))
    ensures '?' !in baseUrl ==> BuildFullUrl(baseUrl, Some(region))[|baseUrl|] == '?'
  {
    var r := BuildFullUrl(baseUrl, Some(region));
    if '?' in baseUrl {
      var k :| 0 <= k < |baseUrl| && baseUrl[k] == '?';
      assert r[k] == '?';
    }
  }
}
