/**
 * The fixed jar catalog: the six categories with their default percentages
 * and display text. Hydration and share decoding take jar metadata and
 * default percentages from here.
 */
module Catalog {
  import opened Types

  const DefaultJars: seq<Jar> := [
    Jar(NEC, "Chi phí thiết yếu", 55,
        "Chi tiêu cho nhu cầu sống cơ bản: ăn uống, nhà ở, đi lại, hóa đơn."),
    Jar(FFA, "Tự do tài chính", 10,
        "Đầu tư để tạo ra thu nhập thụ động, không được tiêu."),
    Jar(LTS, "Tiết kiệm dài hạn", 10,
        "Dành cho các mục tiêu lớn: mua nhà, xe, du lịch, đám cưới."),
    Jar(EDU, "Giáo dục", 10,
        "Đầu tư cho bản thân: sách, khóa học, hội thảo để phát triển."),
    Jar(PLAY, "Hưởng thụ", 10,
        "Tiêu cho sở thích, giải trí, tự thưởng để có động lực."),
    Jar(GIVE, "Cho đi", 5,
        "Từ thiện, giúp đỡ gia đình, bạn bè, quà tặng.")
  ]

  /** Position of each category in the catalog. */
  function CatalogIndex(id: JarId): (i: nat)
    ensures i < |DefaultJars| && DefaultJars[i].id == id
  {
    match id
    case NEC => 0
    case FFA => 1
    case LTS => 2
    case EDU => 3
    case PLAY => 4
    case GIVE => 5
  }

  /** The catalog entry for an id (the id-to-jar map hydration builds). */
  function CatalogJar(id: JarId): (j: Jar)
    ensures j.id == id && j in DefaultJars
    ensures forall k :: 0 <= k < |DefaultJars| && DefaultJars[k].id == id ==> DefaultJars[k] == j
  {
    CatalogLookupUnique(id);
    DefaultJars[CatalogIndex(id)]
  }

  /** The catalog entry stored under a text code; unknown codes have none. */
  function LookupCode(code: string): (r: Option<Jar>)
    ensures r.Some? <==> IsJarCode(code)
    ensures r.Some? ==> Code(r.value.id) == code && r.value == CatalogJar(r.value.id)
  {
    match ParseJarId(code)
    case None => None
    case Some(id) => Some(CatalogJar(id))
  }

  /** A jar carries the catalog's name and description for its id. */
  predicate HasCatalogMetadata(j: Jar) {
    j.name == CatalogJar(j.id).name && j.description == CatalogJar(j.id).description
  }

  /** The total of a jar list's percentages. */
  function SumPercentages(jars: seq<Jar>): int {
    if jars == [] then 0 else SumPercentages(jars[..|jars| - 1]) + jars[|jars| - 1].percentage
  }

  /** The total of a concatenation is the sum of the totals. */
  lemma {:induction false} SumPercentagesAppend(a: seq<Jar>, b: seq<Jar>)
    ensures SumPercentages(a + b) == SumPercentages(a) + SumPercentages(b)
    decreases |b|
  {
    if b == [] {
      assert a + b == a;
    } else {
      var n := |b| - 1;
      assert (a + b)[..|a + b| - 1] == a + b[..n];
      SumPercentagesAppend(a, b[..n]);
    }
  }

  /** Jars whose percentages each lie in 0..100 total between 0 and 100 per jar. */
  lemma {:induction false} SumPercentagesBound(jars: seq<Jar>)
    requires forall k :: 0 <= k < |jars| ==> 0 <= jars[k].percentage <= 100
    ensures 0 <= SumPercentages(jars) <= 100 * |jars|
    decreases |jars|
  {
    if jars != [] {
      SumPercentagesBound(jars[..|jars| - 1]);
    }
  }

  /** Six entries, in the fixed order in which share decoding assigns percentage fields. */
  lemma CatalogOrder()
    ensures |DefaultJars| == 6
    ensures DefaultJars[0].id == NEC && DefaultJars[1].id == FFA && DefaultJars[2].id == LTS
    ensures DefaultJars[3].id == EDU && DefaultJars[4].id == PLAY && DefaultJars[5].id == GIVE
  {
  }

  /** The catalog lists every category exactly once. */
  lemma CatalogLookupUnique(id: JarId)
    ensures DistinctJarIds(DefaultJars)
    ensures forall k :: 0 <= k < |DefaultJars| && DefaultJars[k].id == id ==> k == CatalogIndex(id)
  {
  }

  /** Default shares 55, 10, 10, 10, 10, 5: each in 1..100, together 100. */
  lemma DefaultPercentages()
    ensures forall k :: 0 <= k < |DefaultJars| ==> 1 <= DefaultJars[k].percentage <= 100
    ensures SumPercentages(DefaultJars) == 100
  {
    var d := DefaultJars;
    assert SumPercentages(d[..1]) == 55 by { assert d[..1][..0] == []; }
    assert SumPercentages(d[..2]) == 65 by { assert d[..2][..1] == d[..1]; }
    assert SumPercentages(d[..3]) == 75 by { assert d[..3][..2] == d[..2]; }
    assert SumPercentages(d[..4]) == 85 by { assert d[..4][..3] == d[..3]; }
    assert SumPercentages(d[..5]) == 95 by { assert d[..5][..4] == d[..4]; }
    assert d[..6][..5] == d[..5] && d[..6] == d;
  }

  /** Every catalog entry carries its own metadata. */
  lemma CatalogHasMetadata(j: Jar)
    requires j in DefaultJars
    ensures HasCatalogMetadata(j)
  {
  }
}
