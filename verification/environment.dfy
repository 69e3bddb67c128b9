/** The deployment environment chosen from the page's host name, and the per-environment
    settings (src/config/environment.ts). */
module Environment {
  import opened Strings

  datatype Env = Dev | Homolog | Prod

  /** The key each table is indexed by. */
  function Key(e: Env): string {
    match e
    case Dev => "dev"
    case Homolog => "homolog"
    case Prod => "prod"
  }

  const API_URLS: map<string, string> := map[
    "dev" := "//localhost:5000/api/",
    "homolog" := "//apibookinghmg.zoss.com.br/api/",
    "prod" := "https://apibooking.zoss.com.br/api/"
  ]

  /** The per-environment origin codes and API tokens; their values are credentials and
      stand here as placeholders, since only which keys exist matters to the model. */
  const ORIGIN_CODES: map<string, string> := map[
    "dev" := "<dev origin code>",
    "homolog" := "<homolog origin code>",
    "prod" := "<prod origin code>"
  ]

  const TOKENS: map<string, string> := map[
    "dev" := "<dev token>",
    "homolog" := "<homolog token>",
    "prod" := "<prod token>"
  ]

  /** The alternatives of the homologation pattern. */
  const HOMOLOG_MARKERS: seq<string> := ["localhost", "hmg", "127", "fera", "crmhmg", "carrentalzchat."]

  /** The alternatives of the third pattern, whose branch answers the same as the
      default. */
  const PROD_MARKERS: seq<string> := ["chat", "local", "zoss", "crm", "zoss-movida."]

  predicate ContainsAny(host: string, markers: seq<string>) {
    exists i :: 0 <= i < |markers| && Contains(host, markers[i])
  }

  /** `getCurrentEnvironment`, with the three tests in the source's order. */
  function CurrentEnvironment(host: string): (e: Env)
    ensures Contains(host, "dev.") ==> e == Dev
    ensures !Contains(host, "dev.") && ContainsAny(host, HOMOLOG_MARKERS) ==> e == Homolog
  {
    if Contains(host, "dev.") then Dev
    else if ContainsAny(host, HOMOLOG_MARKERS) then Homolog
    else if ContainsAny(host, PROD_MARKERS) then Prod
    else Prod
  }

  /** The third test is redundant: every host that is neither a development nor a
      homologation host is production. */
  lemma ProdIffNoMarker(host: string)
    ensures CurrentEnvironment(host) == Prod <==> !Contains(host, "dev.") && !ContainsAny(host, HOMOLOG_MARKERS)
    ensures CurrentEnvironment(host) == Dev <==> Contains(host, "dev.")
  {
  }

  /** Whatever the host, every table has an entry for the environment chosen. */
  lemma TablesCoverEnvironment(host: string)
    ensures Key(CurrentEnvironment(host)) in API_URLS
    ensures Key(CurrentEnvironment(host)) in ORIGIN_CODES
    ensures Key(CurrentEnvironment(host)) in TOKENS
  {
  }

  /** A string lacking one of `sub`'s characters does not contain `sub`. */
  lemma MissingCharNotContained(s: string, sub: string, k: int)
    requires 0 <= k < |sub|
    requires forall i :: 0 <= i < |s| ==> s[i] != sub[k]
    ensures !Contains(s, sub)
  {
    forall i | 0 <= i <= |s| - |sub|
      ensures !OccursAt(s, sub, i)
    {
      assert s[i..i + |sub|][k] == s[i + k];
    }
  }

  /** A local development server is a homologation host, not a development one. */
  lemma LocalhostIsHomolog()
    ensures CurrentEnvironment("localhost:5173") == Homolog
  {
    var host := "localhost:5173";
    assert !Contains(host, "dev.") by {
      assert forall i :: 0 <= i < |host| ==> host[i] != 'v';
      MissingCharNotContained(host, "dev.", 2);
    }
    assert OccursAt(host, HOMOLOG_MARKERS[0], 0);
  }
}
