/** The keyword rules that tag order lines and campaigns: the product
    category of `categorize_product` (first matching rule wins), the sale
    line `tipo_venda` derived from it, and the campaign line `tipo_campanha`
    derived from the `[INSTITUTO]` marker in a campaign name. */
module Categories {
  import opened Text

  const CoursesWorkshops := "Cursos e Workshops"
  const Coffee := "Café"
  const Kits := "Kits"
  const Accessories := "Acessórios"
  const Art := "Arte"
  const Food := "Alimentos"
  const Other := "Outros"

  const AllCategories: set<string> :=
    {CoursesWorkshops, Coffee, Kits, Accessories, Art, Food, Other}

  /** The two business lines. */
  const Institute := "Instituto"
  const Ecommerce := "Ecommerce"

  /** The marker a campaign name carries when it advertises the institute. */
  const InstituteMarker := "[INSTITUTO]"

  // ---------------------------------------------------------------------
  // Whole-word, case-insensitive keyword search (`\b(...)\b`, IGNORECASE)
  // ---------------------------------------------------------------------

  /** A character of a regular-expression word (`\w` on text), exactly on
      Latin-1: ASCII letters and digits, `_`, the letters U+00C0 to U+00FF but
      for the signs × and ÷, the ordinal indicators ª and º, the micro sign
      µ, the superscript digits ¹ ² ³ and the fractions ¼ ½ ¾. */
  predicate IsWordChar(c: char) {
    || 'a' <= c <= 'z'
    || 'A' <= c <= 'Z'
    || '0' <= c <= '9'
    || c == '_'
    || c == 'ª' || c == 'º' || c == 'µ'
    || c == '¹' || c == '²' || c == '³'
    || c == '¼' || c == '½' || c == '¾'
    || ('À' <= c <= 'ÿ' && c != '×' && c != '÷')
  }

  /** ASCII lower case. */
  function Lower(c: char): char {
    if 'A' <= c <= 'Z' then (c as int + 32) as char else c
  }

  /** `w` appears in `s` at position `i`, ignoring the case of ASCII letters. */
  predicate MatchesAt(s: string, w: string, i: int) {
    0 <= i && i + |w| <= |s| && forall j | 0 <= j < |w| :: Lower(s[i + j]) == Lower(w[j])
  }

  /** `w` appears at `i` as a whole word: no word character right before or
      right after it. */
  predicate WholeWordAt(s: string, w: string, i: int) {
    && MatchesAt(s, w, i)
    && (i == 0 || !IsWordChar(s[i - 1]))
    && (i + |w| == |s| || !IsWordChar(s[i + |w|]))
  }

  predicate HasWholeWord(s: string, w: string) {
    exists i | 0 <= i <= |s| :: WholeWordAt(s, w, i)
  }

  /** The first rule of the categoriser: `Curso`, `Oficina` or `Workshop`
      as a whole word, in any case. */
  predicate HasCourseWord(name: string) {
    HasWholeWord(name, "Curso") || HasWholeWord(name, "Oficina") || HasWholeWord(name, "Workshop")
  }

  // ---------------------------------------------------------------------
  // Product category
  // ---------------------------------------------------------------------

  /** The category of a product name (`categorize_product`): the first rule
      that matches decides, and a name no rule matches is `Outros`. */
  function Categorize(name: string): (c: string)
    ensures c in AllCategories
    ensures HasCourseWord(name) ==> c == CoursesWorkshops
    ensures c == Other <==> !HasCourseWord(name) && !Contains(name, "Café") && !Contains(name, "Kit")
                            && !Contains(name, "Xícara") && !Contains(name, "Aquarelas")
                            && !Contains(name, "Doce")
  {
    if HasCourseWord(name) then CoursesWorkshops
    else if Contains(name, "Café") then Coffee
    else if Contains(name, "Kit") then Kits
    else if Contains(name, "Xícara") then Accessories
    else if Contains(name, "Aquarelas") then Art
    else if Contains(name, "Doce") then Food
    else Other
  }

  /** The rules in order of precedence: each later keyword decides only when
      none of the earlier ones is present. */
  lemma CategoryPrecedence(name: string)
    ensures HasCourseWord(name) ==> Categorize(name) == CoursesWorkshops
    ensures (!HasCourseWord(name) && Contains(name, "Café")) ==> Categorize(name) == Coffee
    ensures (!HasCourseWord(name) && !Contains(name, "Café") && Contains(name, "Kit"))
            ==> Categorize(name) == Kits
    ensures (!HasCourseWord(name) && !Contains(name, "Café") && !Contains(name, "Kit")
             && Contains(name, "Xícara"))
            ==> Categorize(name) == Accessories
    ensures (!HasCourseWord(name) && !Contains(name, "Café") && !Contains(name, "Kit")
             && !Contains(name, "Xícara") && Contains(name, "Aquarelas"))
            ==> Categorize(name) == Art
    ensures (!HasCourseWord(name) && !Contains(name, "Café") && !Contains(name, "Kit")
             && !Contains(name, "Xícara") && !Contains(name, "Aquarelas") && Contains(name, "Doce"))
            ==> Categorize(name) == Food
  {
  }

  /** Each category is reached by exactly its own rule: a name is `Café`
      precisely when it has the coffee keyword and no course word, and so on
      down the list. */
  lemma CategoryExactly(name: string)
    ensures Categorize(name) == CoursesWorkshops <==> HasCourseWord(name)
    ensures Categorize(name) == Coffee <==> !HasCourseWord(name) && Contains(name, "Café")
    ensures Categorize(name) == Kits
            <==> !HasCourseWord(name) && !Contains(name, "Café") && Contains(name, "Kit")
  {
  }

  /** A case-insensitive match is kept when text is added around it. */
  lemma MatchesInContext(p: string, s: string, q: string, w: string, i: int)
    requires MatchesAt(s, w, i)
    ensures MatchesAt(p + s + q, w, |p| + i)
  {
    var t := p + s + q;
    forall j | 0 <= j < |w| ensures Lower(t[|p| + i + j]) == Lower(w[j]) {
      assert t[|p| + i + j] == s[i + j];
    }
  }

  /** A whole word stays a whole word when the added text does not run into
      it, that is, when it ends and starts with non-word characters. */
  lemma WholeWordInContext(p: string, s: string, q: string, w: string)
    requires HasWholeWord(s, w) && w != []
    requires p == [] || !IsWordChar(p[|p| - 1])
    requires q == [] || !IsWordChar(q[0])
    ensures HasWholeWord(p + s + q, w)
  {
    var i :| 0 <= i <= |s| && WholeWordAt(s, w, i);
    var t := p + s + q;
    var k := |p| + i;
    MatchesInContext(p, s, q, w, i);
    if k > 0 {
      if i > 0 {
        assert t[k - 1] == s[i - 1];
      } else {
        assert t[k - 1] == p[|p| - 1];
      }
    }
    if k + |w| < |t| {
      if i + |w| < |s| {
        assert t[k + |w|] == s[i + |w|];
      } else {
        assert t[k + |w|] == q[0];
      }
    }
    assert WholeWordAt(t, w, k);
  }

  /** A product whose name has a course word stays a course inside any
      longer name, whatever other keywords the added text brings. */
  lemma CourseWordInContext(p: string, name: string, q: string)
    requires HasCourseWord(name)
    requires p == [] || !IsWordChar(p[|p| - 1])
    requires q == [] || !IsWordChar(q[0])
    ensures Categorize(p + name + q) == CoursesWorkshops
  {
    if HasWholeWord(name, "Curso") {
      WholeWordInContext(p, name, q, "Curso");
    } else if HasWholeWord(name, "Oficina") {
      WholeWordInContext(p, name, q, "Oficina");
    } else {
      WholeWordInContext(p, name, q, "Workshop");
    }
  }

  /** One differing letter rules out a match at a position. */
  lemma MismatchAt(s: string, w: string, i: int, j: int)
    requires 0 <= j < |w| && 0 <= i && i + j < |s|
    requires Lower(s[i + j]) != Lower(w[j])
    ensures !MatchesAt(s, w, i)
  {
  }

  /** "Curso de Café Especial" is a course although it names coffee, and a
      workshop is recognised whatever its case. */
  lemma CourseBeatsCoffeeExample()
    ensures Categorize("Curso de Café Especial") == CoursesWorkshops
    ensures Categorize("WORKSHOP de Aquarelas") == CoursesWorkshops
  {
    assert "Curso de Café Especial"[5] == ' ' && "WORKSHOP de Aquarelas"[8] == ' ';
    assert WholeWordAt("Curso de Café Especial", "Curso", 0);
    assert WholeWordAt("WORKSHOP de Aquarelas", "Workshop", 0);
  }

  /** An ordinal indicator is a word character, so in "Cursoº" the word
      `Curso` does not end at a word boundary. */
  lemma OrdinalJoinsWordExample()
    ensures !HasWholeWord("Cursoº", "Curso")
  {
    var s := "Cursoº";
    forall i | 0 <= i <= |s| ensures !WholeWordAt(s, "Curso", i) {
      if i == 1 {
        MismatchAt(s, "Curso", 1, 0);
      }
    }
  }

  /** The plural "Cursos" is not the whole word "Curso": the name falls
      through to the coffee rule. */
  lemma PluralIsNotAWholeWordExample()
    ensures Categorize("Cursos de Café") == Coffee
  {
    var s := "Cursos de Café";
    assert !HasWholeWord(s, "Curso") by {
      forall i | 0 <= i <= |s| ensures !WholeWordAt(s, "Curso", i) {
        if 0 < i <= |s| - 5 {
          MismatchAt(s, "Curso", i, 0);
        }
      }
    }
    assert !HasWholeWord(s, "Oficina") by {
      forall i | 0 <= i <= |s| ensures !WholeWordAt(s, "Oficina", i) {
        if i + 7 <= |s| {
          if Lower(s[i]) == 'o' {
            MismatchAt(s, "Oficina", i, 1);
          } else {
            MismatchAt(s, "Oficina", i, 0);
          }
        }
      }
    }
    assert !HasWholeWord(s, "Workshop") by {
      forall i | 0 <= i <= |s| ensures !WholeWordAt(s, "Workshop", i) {
        if i + 8 <= |s| {
          MismatchAt(s, "Workshop", i, 0);
        }
      }
    }
    assert OccursAt(s, "Café", 10);
  }

  // ---------------------------------------------------------------------
  // Business lines
  // ---------------------------------------------------------------------

  /** `tipo_venda` of an order line, from its category. */
  function SaleLine(category: string): (line: string)
    ensures line == Institute || line == Ecommerce
    ensures line == Institute <==> category == CoursesWorkshops
  {
    if category == CoursesWorkshops then Institute else Ecommerce
  }

  /** An order line belongs to the institute exactly when its product name
      has a course word. */
  lemma SaleLineOfProduct(name: string)
    ensures SaleLine(Categorize(name)) == Institute <==> HasCourseWord(name)
    ensures SaleLine(Categorize(name)) == Ecommerce <==> !HasCourseWord(name)
  {
  }

  /** `tipo_campanha` of a campaign, from its name. */
  function CampaignLine(name: string): (line: string)
    ensures line == Institute || line == Ecommerce
    ensures line == Institute <==> Contains(name, InstituteMarker)
  {
    if Contains(name, InstituteMarker) then Institute else Ecommerce
  }

  /** The marker tags a campaign wherever it sits in the name. */
  lemma CampaignLineInContext(p: string, name: string, q: string)
    requires CampaignLine(name) == Institute
    ensures CampaignLine(p + name + q) == Institute
  {
    ContainsInContext(p, name, q, InstituteMarker);
  }

  /** The marker is matched literally: its lower-case spelling does not tag
      a campaign as the institute's. */
  lemma CampaignMarkerIsCaseSensitiveExample()
    ensures CampaignLine("Curso [instituto]") == Ecommerce
  {
    var s := "Curso [instituto]";
    forall i | 0 <= i <= |s| ensures !OccursAt(s, InstituteMarker, i) {
      if i + |InstituteMarker| <= |s| {
        assert s[i..i + |InstituteMarker|][1] == s[i + 1];
      }
    }
  }
}
