/** The name of the saved JSON artifact (`save_json`). Creating the
    directory and writing the file are not part of this model. */
module Artifact {

  import opened Options
  import opened Calendar
  import opened Validators

  /** `f"{from_curr}_to_{to_curr}_{d.isoformat()}.json"`. */
  function ArtifactName(from: string, to: string, d: Date): (name: string)
    requires IsValid(d)
    ensures |name| == |from| + |to| + 20
    ensures name[..|from|] == from
    ensures name[|from|..|from| + 4] == "_to_"
    ensures name[|name| - 5..] == ".json"
  {
    from + "_to_" + to + "_" + IsoFormat(d) + ".json"
  }

  /** Reads a name of the form `AAA_to_BBB_YYYY-MM-DD.json` back into its
      currency pair and date. */
  function ParseArtifactName(name: string): (r: Option<(string, string, Date)>)
    ensures r.Some? ==> IsCurrencyCode(r.value.0) && IsCurrencyCode(r.value.1) && IsValid(r.value.2)
  {
    if |name| == 26 && name[3..7] == "_to_" && name[10] == '_' && name[21..] == ".json"
       && IsCurrencyCode(name[..3]) && IsCurrencyCode(name[7..10])
    then
      match ParseIso(name[11..21])
      case Some(d) => Some((name[..3], name[7..10], d))
      case None => None
    else None
  }

  /** For a validated pair and a real date, the name determines the key it
      was built from. */
  lemma ArtifactNameRoundTrip(from: string, to: string, d: Date)
    requires IsCurrencyCode(from) && IsCurrencyCode(to) && IsValid(d)
    ensures ParseArtifactName(ArtifactName(from, to, d)) == Some((from, to, d))
  {
    var name := ArtifactName(from, to, d);
    assert name[..3] == from;
    assert name[3..7] == "_to_";
    assert name[7..10] == to;
    assert name[10] == '_';
    assert name[11..21] == IsoFormat(d);
    assert name[21..] == ".json";
    IsoRoundTrip(d);
  }

  /** Different (from, to, date) keys never share an artifact, and the same
      key always names the same one (a later save overwrites it). */
  lemma ArtifactNameInjective(from1: string, to1: string, d1: Date, from2: string, to2: string, d2: Date)
    requires IsCurrencyCode(from1) && IsCurrencyCode(to1) && IsValid(d1)
    requires IsCurrencyCode(from2) && IsCurrencyCode(to2) && IsValid(d2)
    ensures ArtifactName(from1, to1, d1) == ArtifactName(from2, to2, d2)
            <==> from1 == from2 && to1 == to2 && d1 == d2
  {
    ArtifactNameRoundTrip(from1, to1, d1);
    ArtifactNameRoundTrip(from2, to2, d2);
  }

  /** The artifact for USD to EUR on 2025-03-10. */
  lemma ArtifactNameExample()
    ensures ArtifactName("USD", "EUR", Date(2025, 3, 10)) == "USD_to_EUR_2025-03-10.json"
  {
    var iso := IsoFormat(Date(2025, 3, 10));
    IsoExample();
    SpliceIso(iso);
  }

  lemma SpliceIso(iso: string)
    requires iso == "2025-03-10"
    ensures "USD" + "_to_" + "EUR" + "_" + iso + ".json" == "USD_to_EUR_2025-03-10.json"
  {
  }
}
