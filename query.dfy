/**
 * The WHERE-clause builder shared by every dashboard query (build_dynamic_query_parts):
 * a clause string with `?` placeholders and the parameter list that fills them.
 */
module Query {
  import opened Keys

  /** The platform selector value that means "every platform". */
  const All := "전체"

  // The clause fragments, exactly as the builder appends them: the SQL words between the `?`
  // placeholders, and the four fragments built from them.
  const WhereWords := " WHERE p.posted_date BETWEEN "
  const AndWord := " AND "
  const Space := " "
  const PlatformWords := " AND pf.name = "
  const ModelWords := " AND (pr.model LIKE "
  const OrWords := " OR pr.model LIKE "
  const CloseWords := ") "
  const NotLikeLatinPro := " AND pr.model NOT LIKE '%Pro%'"
  const NotLikeKoreanPro := " AND pr.model NOT LIKE '%프로%' "

  const BaseClause := WhereWords + "?" + AndWord + "?" + Space
  const PlatformClause := PlatformWords + "?" + Space
  const ModelClause := ModelWords + "?" + OrWords + "?" + CloseWords
  const ExcludeProClause := NotLikeLatinPro + NotLikeKoreanPro

  /** The Korean spelling of each of the six selectable model labels. */
  function KoreanName(model: string): Option<string> {
    if model == "iPhone 16 Pro" then Some("아이폰 16 프로")
    else if model == "iPhone 16" then Some("아이폰 16")
    else if model == "iPhone 15 Pro" then Some("아이폰 15 프로")
    else if model == "iPhone 15" then Some("아이폰 15")
    else if model == "iPhone 14 Pro" then Some("아이폰 14 프로")
    else if model == "iPhone 14" then Some("아이폰 14")
    else None
  }

  predicate IsSupported(model: string) {
    KoreanName(model).Some?
  }

  /** The base-tier labels, whose filter must also exclude the Pro models. */
  predicate IsBaseTier(model: string) {
    model == "iPhone 16" || model == "iPhone 15" || model == "iPhone 14"
  }

  // ---------------------------------------------------------------------------------------------
  // Counting and finding inside strings
  // ---------------------------------------------------------------------------------------------

  /** The number of occurrences of c in s. */
  function Count(s: string, c: char): (n: nat)
    ensures n <= |s|
    ensures n == 0 <==> c !in s
  {
    if s == [] then 0 else Count(s[..|s| - 1], c) + (if s[|s| - 1] == c then 1 else 0)
  }

  lemma {:induction false} CountAppend(a: string, b: string, c: char)
    ensures Count(a + b, c) == Count(a, c) + Count(b, c)
  {
    if b == [] {
      assert a + b == a;
    } else {
      assert (a + b)[..|a + b| - 1] == a + b[..|b| - 1];
      CountAppend(a, b[..|b| - 1], c);
    }
  }

  /** The number of `?` placeholders in a clause. */
  function Placeholders(s: string): nat {
    Count(s, '?')
  }

  /** t occurs in s as a contiguous substring. */
  ghost predicate Contains(s: string, t: string) {
    exists i :: OccursAt(s, t, i)
  }

  ghost predicate OccursAt(s: string, t: string, i: int) {
    0 <= i <= |s| - |t| && s[i..i + |t|] == t
  }

  lemma ContainsMiddle(a: string, t: string, b: string)
    ensures Contains(a + t + b, t)
  {
    assert OccursAt(a + t + b, t, |a|);
  }

  /** Every character of a substring is a character of the whole string. */
  lemma ContainsChar(s: string, t: string, c: char)
    requires Contains(s, t) && c in t
    ensures c in s
  {
    var i :| OccursAt(s, t, i);
    var j :| 0 <= j < |t| && t[j] == c;
    assert s[i + j] == c;
  }

  // Which of the four special characters each piece holds: `?` (a placeholder), `=` (only in the
  // platform filter), `(` (only in the model filter) and `'` (only in the Pro exclusion).

  /** Letters, digits, Hangul syllables and the punctuation of the fragments other than the four. */
  predicate IsPlain(c: char) {
    || 'a' <= c <= 'z' || 'A' <= c <= 'Z' || '0' <= c <= '9' || '가' <= c <= '힣'
    || c == ' ' || c == '.' || c == '_' || c == '%' || c == ')'
  }

  /** Every character of s is plain, except possibly the character m. */
  predicate PlainExcept(s: string, m: char) {
    forall i :: 0 <= i < |s| ==> IsPlain(s[i]) || s[i] == m
  }

  lemma SpecialsAbsent(s: string, m: char)
    requires PlainExcept(s, m)
    ensures m != '?' ==> '?' !in s
    ensures m != '=' ==> '=' !in s
    ensures m != '(' ==> '(' !in s
    ensures m != '\'' ==> '\'' !in s
  {
  }

  lemma WhereWordsChars()
    ensures '?' !in WhereWords && '=' !in WhereWords && '(' !in WhereWords && '\'' !in WhereWords
  {
    assert PlainExcept(WhereWords, ' ');
    SpecialsAbsent(WhereWords, ' ');
  }

  lemma ShortWordsChars()
    ensures '?' !in AndWord && '=' !in AndWord && '(' !in AndWord && '\'' !in AndWord
    ensures '?' !in Space && '=' !in Space && '(' !in Space && '\'' !in Space
    ensures '?' !in CloseWords && '=' !in CloseWords && '(' !in CloseWords && '\'' !in CloseWords
  {
    assert PlainExcept(AndWord, ' ') && PlainExcept(Space, ' ') && PlainExcept(CloseWords, ' ');
    SpecialsAbsent(AndWord, ' ');
    SpecialsAbsent(Space, ' ');
    SpecialsAbsent(CloseWords, ' ');
  }

  lemma PlatformWordsChars()
    ensures '?' !in PlatformWords && '=' in PlatformWords && '(' !in PlatformWords && '\'' !in PlatformWords
  {
    assert PlainExcept(PlatformWords, '=');
    SpecialsAbsent(PlatformWords, '=');
    assert PlatformWords[13] == '=';
  }

  lemma ModelWordsChars()
    ensures '?' !in ModelWords && '=' !in ModelWords && '(' in ModelWords && '\'' !in ModelWords
    ensures '?' !in OrWords && '=' !in OrWords && '(' !in OrWords && '\'' !in OrWords
  {
    assert PlainExcept(ModelWords, '(') && PlainExcept(OrWords, ' ');
    SpecialsAbsent(ModelWords, '(');
    SpecialsAbsent(OrWords, ' ');
    assert ModelWords[5] == '(';
  }

  lemma NotLikeLatinProChars()
    ensures '?' !in NotLikeLatinPro && '=' !in NotLikeLatinPro && '(' !in NotLikeLatinPro && '\'' in NotLikeLatinPro
  {
    assert PlainExcept(NotLikeLatinPro, '\'');
    SpecialsAbsent(NotLikeLatinPro, '\'');
    assert NotLikeLatinPro[23] == '\'';
  }

  lemma NotLikeKoreanProChars()
    ensures '?' !in NotLikeKoreanPro && '=' !in NotLikeKoreanPro && '(' !in NotLikeKoreanPro && '\'' in NotLikeKoreanPro
  {
    assert PlainExcept(NotLikeKoreanPro, '\'');
    SpecialsAbsent(NotLikeKoreanPro, '\'');
    assert NotLikeKoreanPro[23] == '\'';
  }

  lemma BasePlaceholders()
    ensures Placeholders(BaseClause) == 2
  {
    WhereWordsChars();
    ShortWordsChars();
    CountAppend(WhereWords + "?" + AndWord + "?", Space, '?');
    CountAppend(WhereWords + "?" + AndWord, "?", '?');
    CountAppend(WhereWords + "?", AndWord, '?');
    CountAppend(WhereWords, "?", '?');
  }

  lemma PlatformPlaceholders()
    ensures Placeholders(PlatformClause) == 1
  {
    PlatformWordsChars();
    ShortWordsChars();
    CountAppend(PlatformWords + "?", Space, '?');
    CountAppend(PlatformWords, "?", '?');
  }

  lemma ModelPlaceholders()
    ensures Placeholders(ModelClause) == 2
  {
    ModelWordsChars();
    ShortWordsChars();
    CountAppend(ModelWords + "?" + OrWords + "?", CloseWords, '?');
    CountAppend(ModelWords + "?" + OrWords, "?", '?');
    CountAppend(ModelWords + "?", OrWords, '?');
    CountAppend(ModelWords, "?", '?');
  }

  lemma ExcludeProPlaceholders()
    ensures Placeholders(ExcludeProClause) == 0
  {
    NotLikeLatinProChars();
    NotLikeKoreanProChars();
  }

  // A character that occurs in exactly one fragment tells that fragment apart from the others.
  lemma PlatformMarker()
    ensures '=' in PlatformClause
    ensures '=' !in BaseClause && '=' !in ModelClause && '=' !in ExcludeProClause
  {
    WhereWordsChars();
    ShortWordsChars();
    PlatformWordsChars();
    ModelWordsChars();
    NotLikeLatinProChars();
    NotLikeKoreanProChars();
  }

  lemma ModelMarker()
    ensures '(' in ModelClause
    ensures '(' !in BaseClause && '(' !in PlatformClause && '(' !in ExcludeProClause
  {
    WhereWordsChars();
    ShortWordsChars();
    PlatformWordsChars();
    ModelWordsChars();
    NotLikeLatinProChars();
    NotLikeKoreanProChars();
  }

  lemma ExcludeProMarker()
    ensures '\'' in ExcludeProClause
    ensures '\'' !in BaseClause && '\'' !in PlatformClause && '\'' !in ModelClause
  {
    WhereWordsChars();
    ShortWordsChars();
    PlatformWordsChars();
    ModelWordsChars();
    NotLikeLatinProChars();
  }

  /** A string that lacks a character of t does not contain t. */
  lemma NotContains(s: string, t: string, c: char)
    requires c in t && c !in s
    ensures !Contains(s, t)
  {
    if Contains(s, t) {
      ContainsChar(s, t, c);
    }
  }

  lemma AppendEmpty(s: string)
    ensures s + "" == s && "" + s == s
  {
  }

  /** The placeholders of a clause assembled from four parts are those of its parts. */
  lemma AssembledPlaceholders(base: string, p: string, m: string, e: string)
    ensures Placeholders(base + p + (m + e)) == Placeholders(base) + Placeholders(p) + Placeholders(m) + Placeholders(e)
  {
    CountAppend(base, p, '?');
    CountAppend(base + p, m + e, '?');
    CountAppend(m, e, '?');
  }

  lemma NotInAppend(a: string, b: string, c: char)
    requires c !in a && c !in b
    ensures c !in a + b
  {
  }

  /** A part that is either a fragment or empty occurs in a clause exactly when it is the fragment. */
  lemma Presence(before: string, fragment: string, after: string, part: string, marker: char)
    requires part == fragment || part == ""
    requires marker in fragment && marker !in before && marker !in after
    ensures Contains(before + part + after, fragment) <==> part != ""
  {
    if part != "" {
      ContainsMiddle(before, fragment, after);
    } else {
      AppendEmpty(before);
      NotInAppend(before, after, marker);
      NotContains(before + after, fragment, marker);
    }
  }

  /**
   * A clause made of a base and three optional parts, each either its fragment or empty, where
   * each fragment carries a marker character that no other fragment has: each fragment occurs in
   * the clause exactly when its part is present.
   */
  lemma AssembledPresence(base: string, platform: string, model: string, exclude: string, p: string, m: string, e: string)
    requires p == platform || p == ""
    requires m == model || m == ""
    requires e == exclude || e == ""
    requires '=' in platform && '=' !in base && '=' !in model && '=' !in exclude
    requires '(' in model && '(' !in base && '(' !in platform && '(' !in exclude
    requires '\'' in exclude && '\'' !in base && '\'' !in platform && '\'' !in model
    ensures Contains(base + p + (m + e), platform) <==> p != ""
    ensures Contains(base + p + (m + e), model) <==> m != ""
    ensures Contains(base + p + (m + e), exclude) <==> e != ""
  {
    var w := base + p + (m + e);
    assert '=' !in m && '=' !in e;
    NotInAppend(m, e, '=');
    Presence(base, platform, m + e, p, '=');
    assert w == (base + p) + m + e;
    assert '(' !in p;
    NotInAppend(base, p, '(');
    Presence(base + p, model, e, m, '(');
    assert w == (base + p + m) + e + "";
    assert '\'' !in p && '\'' !in m;
    NotInAppend(base, p, '\'');
    NotInAppend(base + p, m, '\'');
    Presence(base + p + m, exclude, "", e, '\'');
  }

  // ---------------------------------------------------------------------------------------------
  // build_dynamic_query_parts
  // ---------------------------------------------------------------------------------------------

  /** The platform fragment: present for every platform selector other than All. */
  function PlatformPart(platform: string): string {
    if platform != All then PlatformClause else ""
  }

  /** The model fragment: present for the six known labels. */
  function ModelPart(model: string): string {
    if IsSupported(model) then ModelClause else ""
  }

  /** The Pro exclusion: present for the three base-tier labels. */
  function ExcludePart(model: string): string {
    if IsBaseTier(model) then ExcludeProClause else ""
  }

  /** The LIKE patterns for a known label: its Latin and its Korean spelling, each inside `%`. */
  function Patterns(model: string): seq<string> {
    if IsSupported(model) then ["%" + model + "%", "%" + KoreanName(model).value + "%"] else []
  }

  /** The clause the builder returns, as a function of the two selectors. */
  function WhereClause(platform: string, model: string): string {
    BaseClause + PlatformPart(platform) + (ModelPart(model) + ExcludePart(model))
  }

  /** The parameters the builder returns, in placeholder order. */
  function QueryParams(platform: string, model: string, startDate: string, endDate: string): seq<string> {
    [startDate, endDate] + (if platform != All then [platform] else []) + Patterns(model)
  }

  lemma UnknownModel(model: string)
    requires model != "iPhone 16 Pro" && model != "iPhone 16" && model != "iPhone 15 Pro"
    requires model != "iPhone 15" && model != "iPhone 14 Pro" && model != "iPhone 14"
    ensures Patterns(model) == [] && ModelPart(model) == "" && ExcludePart(model) == ""
  {
  }

  // What the parts say for each known label, one label at a time.
  lemma Known16Pro()
    ensures Patterns("iPhone 16 Pro") == ["%iPhone 16 Pro%", "%아이폰 16 프로%"]
    ensures ModelPart("iPhone 16 Pro") == ModelClause && ExcludePart("iPhone 16 Pro") == ""
  {
    assert KoreanName("iPhone 16 Pro") == Some("아이폰 16 프로") by { assert |"iPhone 16 Pro"| == 13; }
    assert "%" + "iPhone 16 Pro" + "%" == "%iPhone 16 Pro%";
    assert "%" + "아이폰 16 프로" + "%" == "%아이폰 16 프로%";
  }

  lemma Known16()
    ensures Patterns("iPhone 16") == ["%iPhone 16%", "%아이폰 16%"]
    ensures ModelPart("iPhone 16") == ModelClause && ExcludePart("iPhone 16") == ExcludeProClause
  {
    assert KoreanName("iPhone 16") == Some("아이폰 16") by { assert |"iPhone 16"| == 9; }
    assert "%" + "iPhone 16" + "%" == "%iPhone 16%";
    assert "%" + "아이폰 16" + "%" == "%아이폰 16%";
  }

  lemma Known15Pro()
    ensures Patterns("iPhone 15 Pro") == ["%iPhone 15 Pro%", "%아이폰 15 프로%"]
    ensures ModelPart("iPhone 15 Pro") == ModelClause && ExcludePart("iPhone 15 Pro") == ""
  {
    assert KoreanName("iPhone 15 Pro") == Some("아이폰 15 프로") by { assert |"iPhone 15 Pro"| == 13; }
    assert "%" + "iPhone 15 Pro" + "%" == "%iPhone 15 Pro%";
    assert "%" + "아이폰 15 프로" + "%" == "%아이폰 15 프로%";
  }

  lemma Known15()
    ensures Patterns("iPhone 15") == ["%iPhone 15%", "%아이폰 15%"]
    ensures ModelPart("iPhone 15") == ModelClause && ExcludePart("iPhone 15") == ExcludeProClause
  {
    assert KoreanName("iPhone 15") == Some("아이폰 15") by { assert |"iPhone 15"| == 9; }
    assert "%" + "iPhone 15" + "%" == "%iPhone 15%";
    assert "%" + "아이폰 15" + "%" == "%아이폰 15%";
  }

  lemma Known14Pro()
    ensures Patterns("iPhone 14 Pro") == ["%iPhone 14 Pro%", "%아이폰 14 프로%"]
    ensures ModelPart("iPhone 14 Pro") == ModelClause && ExcludePart("iPhone 14 Pro") == ""
  {
    assert KoreanName("iPhone 14 Pro") == Some("아이폰 14 프로") by { assert |"iPhone 14 Pro"| == 13; }
    assert "%" + "iPhone 14 Pro" + "%" == "%iPhone 14 Pro%";
    assert "%" + "아이폰 14 프로" + "%" == "%아이폰 14 프로%";
  }

  lemma Known14()
    ensures Patterns("iPhone 14") == ["%iPhone 14%", "%아이폰 14%"]
    ensures ModelPart("iPhone 14") == ModelClause && ExcludePart("iPhone 14") == ExcludeProClause
  {
    assert KoreanName("iPhone 14") == Some("아이폰 14") by { assert |"iPhone 14"| == 9; }
    assert "%" + "iPhone 14" + "%" == "%iPhone 14%";
    assert "%" + "아이폰 14" + "%" == "%아이폰 14%";
  }

  /**
   * The model part of build_dynamic_query_parts: for each of the six known labels a LIKE filter
   * on the Latin and the Korean spelling, followed for the base-tier labels by the Pro exclusion;
   * nothing for any other label.
   */
  method ModelFilter(model: string) returns (clause: string, patterns: seq<string>)
    ensures clause == ModelPart(model) + ExcludePart(model)
    ensures patterns == Patterns(model)
  {
    clause, patterns := "", [];
    if model == "iPhone 16 Pro" {
      clause := ModelClause;
      patterns := ["%iPhone 16 Pro%", "%아이폰 16 프로%"];
      Known16Pro();
      AppendEmpty(ModelClause);
    } else if model == "iPhone 16" {
      clause := ModelClause;
      patterns := ["%iPhone 16%", "%아이폰 16%"];
      Known16();
      clause := clause + ExcludeProClause;
    } else if model == "iPhone 15 Pro" {
      clause := ModelClause;
      patterns := ["%iPhone 15 Pro%", "%아이폰 15 프로%"];
      Known15Pro();
      AppendEmpty(ModelClause);
    } else if model == "iPhone 15" {
      clause := ModelClause;
      patterns := ["%iPhone 15%", "%아이폰 15%"];
      Known15();
      clause := clause + ExcludeProClause;
    } else if model == "iPhone 14 Pro" {
      clause := ModelClause;
      patterns := ["%iPhone 14 Pro%", "%아이폰 14 프로%"];
      Known14Pro();
      AppendEmpty(ModelClause);
    } else if model == "iPhone 14" {
      clause := ModelClause;
      patterns := ["%iPhone 14%", "%아이폰 14%"];
      Known14();
      clause := clause + ExcludeProClause;
    } else {
      UnknownModel(model);
    }
  }

  /**
   * Builds the WHERE clause and its parameters from the platform selector, the model selector
   * and the (already rendered) start and end dates: the date range first, then the platform
   * filter for a platform other than All, then the model filter for a known model label.
   */
  method BuildQueryParts(platform: string, model: string, startDate: string, endDate: string)
    returns (whereClause: string, params: seq<string>)
    ensures whereClause == WhereClause(platform, model)
    ensures params == QueryParams(platform, model, startDate, endDate)
  {
    params := [];
    whereClause := BaseClause;
    params := params + [startDate, endDate];

    if platform != All {
      whereClause := whereClause + PlatformClause;
      params := params + [platform];
    } else {
      AppendEmpty(BaseClause);
    }

    var modelFilter, patterns := ModelFilter(model);
    whereClause := whereClause + modelFilter;
    params := params + patterns;
  }

  // ---------------------------------------------------------------------------------------------
  // What the clause and its parameters promise
  // ---------------------------------------------------------------------------------------------

  /**
   * The clause has exactly one placeholder per parameter: two for the dates, one for a
   * platform other than All, two for a known model.
   */
  lemma PlaceholdersMatchParams(platform: string, model: string, startDate: string, endDate: string)
    ensures Placeholders(WhereClause(platform, model)) == |QueryParams(platform, model, startDate, endDate)|
    ensures |QueryParams(platform, model, startDate, endDate)| == 2 + (if platform != All then 1 else 0) + (if IsSupported(model) then 2 else 0)
  {
    BasePlaceholders();
    PlatformPlaceholders();
    ModelPlaceholders();
    ExcludeProPlaceholders();
    AssembledPlaceholders(BaseClause, PlatformPart(platform), ModelPart(model), ExcludePart(model));
  }

  /**
   * The parameters in placeholder order: the two dates, the platform when there is a platform
   * filter, then the two LIKE patterns of a known model.
   */
  lemma ParamsLayout(platform: string, model: string, startDate: string, endDate: string)
    ensures var ps := QueryParams(platform, model, startDate, endDate);
      && |ps| >= 2 && ps[0] == startDate && ps[1] == endDate
      && (platform != All ==> |ps| >= 3 && ps[2] == platform)
      && (IsSupported(model) ==>
            && ps[|ps| - 2] == "%" + model + "%"
            && ps[|ps| - 1] == "%" + KoreanName(model).value + "%")
  {
  }

  /** The clause always starts with the date range. */
  lemma ClauseStartsWithDates(platform: string, model: string)
    ensures var w := WhereClause(platform, model);
      |BaseClause| <= |w| && w[..|BaseClause|] == BaseClause
  {
    PrefixOfAppend(BaseClause + PlatformPart(platform), ModelPart(model) + ExcludePart(model), BaseClause, PlatformPart(platform));
  }

  lemma PrefixOfAppend(ab: string, c: string, a: string, b: string)
    requires ab == a + b
    ensures |a| <= |ab + c| && (ab + c)[..|a|] == a
  {
    assert (ab + c)[..|a|] == ab[..|a|];
  }

  /** Each optional fragment occurs in the clause exactly when its selector asks for it. */
  lemma ClauseFragments(platform: string, model: string)
    ensures var w := WhereClause(platform, model);
      && (Contains(w, PlatformClause) <==> platform != All)
      && (Contains(w, ModelClause) <==> IsSupported(model))
      && (Contains(w, ExcludeProClause) <==> IsBaseTier(model))
  {
    PlatformMarker();
    ModelMarker();
    ExcludeProMarker();
    AssembledPresence(BaseClause, PlatformClause, ModelClause, ExcludeProClause, PlatformPart(platform), ModelPart(model), ExcludePart(model));
  }

  /** An unknown model label adds nothing to the clause after the platform filter. */
  lemma UnknownModelClause(platform: string, model: string)
    requires !IsSupported(model)
    ensures WhereClause(platform, model) == BaseClause + PlatformPart(platform)
  {
    assert !IsBaseTier(model);
    AppendEmpty(BaseClause + PlatformPart(platform));
  }
}
