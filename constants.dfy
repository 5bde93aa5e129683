/** The constants the core shares: time units and the table of zodiac signs. */
module Constants {
  import opened Text

  const MS_PER_MIN: nat := 60 * 1000
  const MS_PER_HOUR: nat := 60 * MS_PER_MIN

  /** Three-letter lower-case prefix to the name of the sign. */
  const SIGNS: map<string, string> := map[
    "ari" := "Aries",
    "tau" := "Taurus",
    "gem" := "Gemini",
    "can" := "Cancer",
    "leo" := "Leo",
    "vir" := "Virgo",
    "lib" := "Libra",
    "sco" := "Scorpio",
    "sag" := "Sagittarius",
    "cap" := "Capricorn",
    "aqu" := "Aquarius",
    "pis" := "Pisces"
  ]

  lemma TimeUnits()
    ensures MS_PER_MIN == 60000 && MS_PER_HOUR == 3600000
  {
  }

  /** There are twelve signs. */
  lemma SignCount()
    ensures |SIGNS| == 12
  {
    var m: map<string, string> := map[];
    assert "ari" !in m;  m := m["ari" := "Aries"];  assert |m| == 1;
    assert "tau" !in m;  m := m["tau" := "Taurus"];  assert |m| == 2;
    assert "gem" !in m;  m := m["gem" := "Gemini"];  assert |m| == 3;
    assert "can" !in m;  m := m["can" := "Cancer"];  assert |m| == 4;
    assert "leo" !in m;  m := m["leo" := "Leo"];  assert |m| == 5;
    assert "vir" !in m;  m := m["vir" := "Virgo"];  assert |m| == 6;
    assert "lib" !in m;  m := m["lib" := "Libra"];  assert |m| == 7;
    assert "sco" !in m;  m := m["sco" := "Scorpio"];  assert |m| == 8;
    assert "sag" !in m;  m := m["sag" := "Sagittarius"];  assert |m| == 9;
    assert "cap" !in m;  m := m["cap" := "Capricorn"];  assert |m| == 10;
    assert "aqu" !in m;  m := m["aqu" := "Aquarius"];  assert |m| == 11;
    assert "pis" !in m;  m := m["pis" := "Pisces"];  assert |m| == 12;
    assert m == SIGNS;
  }

  /** Each key is the lower-cased first three letters of its sign's name. */
  lemma SignKeysArePrefixes()
    ensures forall k | k in SIGNS :: |SIGNS[k]| >= 3 && k == Lower(SIGNS[k][..3])
  {
    forall k | k in SIGNS ensures |SIGNS[k]| >= 3 && k == Lower(SIGNS[k][..3]) {
      var v := SIGNS[k];
      assert |k| == 3 && k[0] == LowerChar(v[0]) && k[1] == LowerChar(v[1]) && k[2] == LowerChar(v[2]);
    }
  }

  /** No two keys name the same sign, so a sign's name determines its key. */
  lemma SignNamesDistinct()
    ensures forall k1, k2 | k1 in SIGNS && k2 in SIGNS && k1 != k2 :: SIGNS[k1] != SIGNS[k2]
  {
  }
}
