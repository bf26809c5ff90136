/** `niceLabel` (CineColombiaManager.java): the header label shown for a
    query variable. */
module Labels {

  /** The fixed table of "common mappings". Every entry maps a name to
      itself. */
  const KnownLabels: map<string, string> := map[
    "tituloEspanol" := "tituloEspanol",
    "titulo" := "titulo",
    "estreno" := "estreno",
    "duracion" := "duracion",
    "genero" := "genero",
    "clasificacion" := "clasificacion",
    "preventa" := "preventa",
    "formato" := "formato",
    "duracionPromedio" := "duracionPromedio",
    "totalPeliculas" := "totalPeliculas"
  ]

  /** Java regex classes `[a-z]` and `[A-Z]`: ASCII letters only. */
  predicate IsLower(c: char) { 'a' <= c <= 'z' }

  predicate IsUpper(c: char) { 'A' <= c <= 'Z' }

  /** `replaceAll("([a-z])([A-Z])", "$1 $2")`: the regex engine scans left
      to right; at a lowercase letter followed by an uppercase one it writes
      both with a space between and resumes after the pair, otherwise it
      copies one character. */
  function SplitCamel(s: string): string {
    if |s| <= 1 then s
    else if IsLower(s[0]) && IsUpper(s[1]) then [s[0], ' ', s[1]] + SplitCamel(s[2..])
    else [s[0]] + SplitCamel(s[1..])
  }

  /** The readability rule stated position by position: after each
      character, a space when it is a lowercase letter and the next one is
      an uppercase letter. */
  function SpaceCamelPairs(s: string): (r: string)
    ensures |r| >= |s|
  {
    if s == [] then []
    else [s[0]] + (if |s| >= 2 && IsLower(s[0]) && IsUpper(s[1]) then " " else "")
         + SpaceCamelPairs(s[1..])
  }

  /** `replace('_', ' ')`. */
  function UnderscoresToSpaces(s: string): (r: string)
    ensures |r| == |s|
    ensures forall i :: 0 <= i < |s| ==> r[i] == (if s[i] == '_' then ' ' else s[i])
    ensures '_' !in r
  {
    if s == [] then [] else [if s[0] == '_' then ' ' else s[0]] + UnderscoresToSpaces(s[1..])
  }

  /** `niceLabel(var)`: "" for the empty name, the table's entry for a known
      name, and otherwise the camelCase and underscore transform. */
  function NiceLabel(v: string): string {
    if v == "" then ""
    else if v in KnownLabels then KnownLabels[v]
    else UnderscoresToSpaces(SplitCamel(v))
  }

  /** The regex scan inserts a space at exactly the adjacent lowercase-
      uppercase pairs: an uppercase letter never starts a new pair, so
      resuming after the pair misses none. */
  lemma {:induction false} SplitCamelSpacesPairs(s: string)
    ensures SplitCamel(s) == SpaceCamelPairs(s)
  {
    if |s| <= 1 {
    } else if IsLower(s[0]) && IsUpper(s[1]) {
      SplitCamelSpacesPairs(s[2..]);
      assert s[1..][1..] == s[2..];
      assert !IsLower(s[1]);
    } else {
      SplitCamelSpacesPairs(s[1..]);
    }
  }

  /** What `niceLabel` returns, case by case. */
  lemma NiceLabelCases(v: string)
    ensures v == "" ==> NiceLabel(v) == ""
    ensures v in KnownLabels ==> NiceLabel(v) == v
    ensures v !in KnownLabels ==> NiceLabel(v) == UnderscoresToSpaces(SpaceCamelPairs(v))
  {
    SplitCamelSpacesPairs(v);
  }

  /** A name outside the table is never shortened and loses every
      underscore (its exact label is given by `NiceLabelCases`). */
  lemma NiceLabelOfUnknown(v: string)
    requires v !in KnownLabels
    ensures |NiceLabel(v)| >= |v|
    ensures '_' !in NiceLabel(v)
  {
    NiceLabelCases(v);
  }
}
