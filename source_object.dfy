/**
 * A database object whose source text PMD analyses (PMD's `SourceObject`),
 * and the pseudo file name under which that source is reported:
 * `/Database/<schema>/<type>/<name><suffix>`, where the suffix is looked up,
 * ignoring case, from the object type.
 *
 * The four fields are nullable Java strings, modelled as `Option<string>`;
 * appending a null string to a Java `StringBuilder` appends the text "null",
 * which is `Render`.
 */
module DatabaseSource {
  import opened Wrappers

  // ---------------------------------------------------------------------------
  // Case folding
  // ---------------------------------------------------------------------------

  /** Upper-cases an ASCII letter; every other character is left as it is. */
  function UpperChar(c: char): char {
    if 'a' <= c <= 'z' then (c as int - 32) as char else c
  }

  function AsciiUpper(s: string): (r: string)
    ensures |r| == |s|
    ensures forall i :: 0 <= i < |s| ==> r[i] == UpperChar(s[i])
  {
    if s == [] then [] else [UpperChar(s[0])] + AsciiUpper(s[1..])
  }

  lemma AsciiUpperIdempotent(s: string)
    ensures AsciiUpper(AsciiUpper(s)) == AsciiUpper(s)
  {
  }

  // ---------------------------------------------------------------------------
  // The suffix table
  // ---------------------------------------------------------------------------

  /** The object types that have a file suffix, upper-case, and their suffixes. */
  const SuffixTable: map<string, string> := map[
    "JAVA_SOURCE" := ".java",
    "TRIGGER" := ".trg",
    "FUNCTION" := ".fnc",
    "PROCEDURE" := ".prc",
    "PACKAGE_BODY" := ".pkb",
    "PACKAGE" := ".pks",
    "TYPE_BODY" := ".tpb",
    "TYPE" := ".tps"
  ]

  /** The switch over the upper-cased object type. */
  function SuffixOfUpper(upper: string): (suffix: string)
    ensures suffix != "" <==> upper in SuffixTable
    ensures upper in SuffixTable ==> suffix == SuffixTable[upper]
  {
    if upper == "JAVA_SOURCE" then ".java"
    else if upper == "TRIGGER" then ".trg"
    else if upper == "FUNCTION" then ".fnc"
    else if upper == "PROCEDURE" then ".prc"
    else if upper == "PACKAGE_BODY" then ".pkb"
    else if upper == "PACKAGE" then ".pks"
    else if upper == "TYPE_BODY" then ".tpb"
    else if upper == "TYPE" then ".tps"
    else ""
  }

  /** The file suffix for an object type: empty for a null or empty type and for any type not in the table. */
  function SuffixFromType(objectType: Option<string>): (suffix: string)
    ensures suffix in {"", ".java", ".trg", ".fnc", ".prc", ".pkb", ".pks", ".tpb", ".tps"}
    ensures objectType.None? || objectType.value == "" ==> suffix == ""
    ensures '/' !in suffix
  {
    if objectType.None? || objectType.value == "" then ""
    else SuffixOfUpper(AsciiUpper(objectType.value))
  }

  /** The switch agrees with the table: a known type, in any case, gets its suffix; any other type gets none. */
  lemma SuffixFollowsTable(t: string)
    ensures SuffixFromType(Some(t)) ==
            if AsciiUpper(t) in SuffixTable then SuffixTable[AsciiUpper(t)] else ""
  {
  }

  /** The lookup ignores case. */
  lemma SuffixIgnoresCase(t: string)
    ensures SuffixFromType(Some(t)) == SuffixFromType(Some(AsciiUpper(t)))
  {
    AsciiUpperIdempotent(t);
  }

  /** The object type, upper-case, that a non-empty suffix belongs to: the table read backwards. */
  function TypeOfSuffix(suffix: string): string {
    if suffix == ".java" then "JAVA_SOURCE"
    else if suffix == ".trg" then "TRIGGER"
    else if suffix == ".fnc" then "FUNCTION"
    else if suffix == ".prc" then "PROCEDURE"
    else if suffix == ".pkb" then "PACKAGE_BODY"
    else if suffix == ".pks" then "PACKAGE"
    else if suffix == ".tpb" then "TYPE_BODY"
    else if suffix == ".tps" then "TYPE"
    else ""
  }

  lemma SuffixOfUpperInverse(upper: string)
    ensures SuffixOfUpper(upper) != "" ==> TypeOfSuffix(SuffixOfUpper(upper)) == upper
  {
    if upper == "JAVA_SOURCE" {
    } else if upper == "TRIGGER" {
    } else if upper == "FUNCTION" {
    } else if upper == "PROCEDURE" {
    } else if upper == "PACKAGE_BODY" {
    } else if upper == "PACKAGE" {
    } else if upper == "TYPE_BODY" {
    } else if upper == "TYPE" {
    }
  }

  /** The table is one-to-one: a non-empty suffix tells the object type, up to case. */
  lemma SuffixDeterminesType(t1: string, t2: string)
    requires SuffixFromType(Some(t1)) == SuffixFromType(Some(t2)) != ""
    ensures AsciiUpper(t1) == AsciiUpper(t2) == TypeOfSuffix(SuffixFromType(Some(t1)))
  {
    SuffixOfUpperInverse(AsciiUpper(t1));
    SuffixOfUpperInverse(AsciiUpper(t2));
  }

  // ---------------------------------------------------------------------------
  // The pseudo file name
  // ---------------------------------------------------------------------------

  /** What `StringBuilder.append` writes for a nullable string. */
  function Render(s: Option<string>): string {
    if s.None? then "null" else s.value
  }

  /** The pseudo file name of a database object. */
  function PseudoFileNameOf(schema: Option<string>, objectType: Option<string>, name: Option<string>): string {
    "/Database/" + Render(schema) + "/" + Render(objectType) + "/" + Render(name) + SuffixFromType(objectType)
  }

  /** The pieces of `s` between occurrences of `sep`, empty pieces included. */
  function Split(s: string, sep: char): (pieces: seq<string>)
    ensures |pieces| >= 1
    decreases |s|
  {
    if s == [] then [""]
    else
      var rest := Split(s[1..], sep);
      if s[0] == sep then [""] + rest else [[s[0]] + rest[0]] + rest[1..]
  }

  lemma {:induction false} SplitWithoutSeparator(s: string, sep: char)
    requires sep !in s
    ensures Split(s, sep) == [s]
    decreases |s|
  {
    if s != [] {
      SplitWithoutSeparator(s[1..], sep);
      assert [s[0]] + s[1..] == s;
    }
  }

  lemma {:induction false} SplitAtFirstSeparator(x: string, y: string, sep: char)
    requires sep !in x
    ensures Split(x + [sep] + y, sep) == [x] + Split(y, sep)
    decreases |x|
  {
    var s := x + [sep] + y;
    if x == [] {
      assert s[1..] == y;
    } else {
      assert s[1..] == x[1..] + [sep] + y;
      SplitAtFirstSeparator(x[1..], y, sep);
      assert [x[0]] + x[1..] == x;
    }
  }

  lemma PathSegments(s: string, t: string, n: string)
    requires '/' !in s && '/' !in t && '/' !in n
    ensures Split("/Database/" + s + "/" + t + "/" + n, '/') == ["", "Database", s, t, n]
  {
    var db := "Database";
    var rest3 := t + "/" + n;
    var rest2 := s + "/" + rest3;
    var rest1 := db + "/" + rest2;
    assert "/Database/" + s + "/" + t + "/" + n == "" + "/" + rest1;
    assert Split(rest3, '/') == [t, n] by {
      SplitWithoutSeparator(n, '/');
      SplitAtFirstSeparator(t, n, '/');
    }
    assert Split(rest2, '/') == [s, t, n] by {
      SplitAtFirstSeparator(s, rest3, '/');
    }
    assert Split(rest1, '/') == [db, s, t, n] by {
      SplitAtFirstSeparator(db, rest2, '/');
    }
    SplitAtFirstSeparator("", rest1, '/');
  }

  /**
   * When schema, type and name hold no '/', the pseudo file name has exactly
   * the segments "", "Database", schema, type, and name followed by the suffix.
   */
  lemma PseudoFileNameSegments(schema: Option<string>, objectType: Option<string>, name: Option<string>)
    requires '/' !in Render(schema) && '/' !in Render(objectType) && '/' !in Render(name)
    ensures Split(PseudoFileNameOf(schema, objectType, name), '/') ==
            ["", "Database", Render(schema), Render(objectType), Render(name) + SuffixFromType(objectType)]
  {
    var n := Render(name) + SuffixFromType(objectType);
    assert PseudoFileNameOf(schema, objectType, name) == "/Database/" + Render(schema) + "/" + Render(objectType) + "/" + n;
    PathSegments(Render(schema), Render(objectType), n);
  }

  /** Two type fields that print alike get the same suffix ("null" is not a known type). */
  lemma SuffixByRendering(t1: Option<string>, t2: Option<string>)
    requires Render(t1) == Render(t2)
    ensures SuffixFromType(t1) == SuffixFromType(t2)
  {
    if t1.None? || t2.None? {
      assert AsciiUpper("null") == "NULL";
    }
  }

  /**
   * Distinct database objects get distinct pseudo file names, as long as
   * their schema, type and name hold no '/'.
   */
  lemma PseudoFileNameInjective(schema1: Option<string>, type1: Option<string>, name1: Option<string>,
                                schema2: Option<string>, type2: Option<string>, name2: Option<string>)
    requires '/' !in Render(schema1) && '/' !in Render(type1) && '/' !in Render(name1)
    requires '/' !in Render(schema2) && '/' !in Render(type2) && '/' !in Render(name2)
    requires PseudoFileNameOf(schema1, type1, name1) == PseudoFileNameOf(schema2, type2, name2)
    ensures Render(schema1) == Render(schema2)
    ensures Render(type1) == Render(type2)
    ensures Render(name1) == Render(name2)
  {
    PseudoFileNameSegments(schema1, type1, name1);
    PseudoFileNameSegments(schema2, type2, name2);
    SuffixByRendering(type1, type2);
    var n1, n2, suffix := Render(name1), Render(name2), SuffixFromType(type1);
    assert n1 + suffix == n2 + suffix;
    assert n1 == (n1 + suffix)[..|n1|];
    assert n2 == (n2 + suffix)[..|n2|];
  }

  // ---------------------------------------------------------------------------
  // The object
  // ---------------------------------------------------------------------------

  /** A database object: four mutable, nullable fields with their setters. */
  class SourceObject {
    var schema: Option<string>
    var name: Option<string>
    var objectType: Option<string>
    var revision: Option<string>

    /** All four fields start out null. */
    constructor ()
      ensures schema.None? && name.None? && objectType.None? && revision.None?
    {
      schema, name, objectType, revision := None, None, None, None;
    }

    method SetSchema(value: Option<string>)
      modifies this`schema
      ensures schema == value
    {
      schema := value;
    }

    method SetName(value: Option<string>)
      modifies this`name
      ensures name == value
    {
      name := value;
    }

    method SetType(value: Option<string>)
      modifies this`objectType
      ensures objectType == value
    {
      objectType := value;
    }

    method SetRevision(value: Option<string>)
      modifies this`revision
      ensures revision == value
    {
      revision := value;
    }

    /** Builds the pseudo file name piece by piece; changes no field. */
    method PseudoFileName() returns (fileName: string)
      ensures fileName == PseudoFileNameOf(schema, objectType, name)
      ensures |fileName| >= 10 && fileName[..10] == "/Database/"
    {
      var builder := "";
      builder := builder + "/Database/";
      builder := builder + Render(schema);
      builder := builder + "/";
      builder := builder + Render(objectType);
      builder := builder + "/";
      builder := builder + Render(name);
      builder := builder + SuffixFromType(objectType);
      fileName := builder;
    }
  }
}
