/**
 * Checking and taking apart the base name of the chosen project file
 * (`validateFileName` and `parseFileName` of CC_ExportCleans.js).
 */
module FileNames {
  import opened Wrappers
  import opened Strings

  /** The base name the save dialog proposes when the user typed none. */
  const Placeholder := "Untitled"

  /** The tokens of a project name such as `Show_SQ010_Extra_v03`. */
  datatype ParsedName = ParsedName(sequence: string, version: string)

  /** Reading `.replace` of the missing second token throws. */
  datatype ScriptError = TypeError

  /** A name is accepted unless it is the placeholder, in which case the export stops. */
  function ValidateFileName(baseName: string): (ok: bool)
    ensures ok <==> baseName != Placeholder
  {
    baseName != "Untitled"
  }

  /**
   * Split on `_`; the second token without its first `SQ` is the sequence,
   * the last token the version. A name with no `_` has no second token.
   */
  function ParseFileName(baseName: string): (r: Result<ParsedName, ScriptError>)
    ensures r.Failure? <==> '_' !in baseName
    ensures r.Success? ==> '_' !in r.value.version && '_' !in r.value.sequence
  {
    SplitSinglePiece(baseName, '_');
    var tokens := Split(baseName, '_');
    if |tokens| < 2 then Failure(TypeError)
    else
      var sequence := ReplaceFirst(tokens[1], "SQ", "");
      assert '_' !in sequence by { RemovingKeepsAbsent(tokens[1], "SQ", '_'); }
      Success(ParsedName(sequence, tokens[|tokens| - 1]))
  }

  /** Removing a piece of a string cannot introduce a character. */
  lemma RemovingKeepsAbsent(s: string, pat: string, c: char)
    requires c !in s
    ensures c !in ReplaceFirst(s, pat, "")
  {
    match IndexOfFrom(s, pat, 0)
    case None =>
    case Some(k) =>
      var before, after := s[..k], s[k + |pat|..];
      assert ReplaceFirst(s, pat, "") == before + "" + after;
      assert forall i :: 0 <= i < |before| ==> before[i] == s[i];
      assert forall i :: 0 <= i < |after| ==> after[i] == s[k + |pat| + i];
      assert before + "" + after == before + after;
  }

  /**
   * A name built from at least two `_`-free tokens parses to the second token
   * without its first `SQ` and to the last token, whatever lies between.
   */
  lemma ParseJoinedName(tokens: seq<string>)
    requires |tokens| >= 2
    requires forall k :: 0 <= k < |tokens| ==> '_' !in tokens[k]
    ensures ParseFileName(Join(tokens, '_'))
            == Success(ParsedName(ReplaceFirst(tokens[1], "SQ", ""), tokens[|tokens| - 1]))
  {
    var name := Join(tokens, '_');
    SplitJoin(tokens, '_');
    SplitSinglePiece(name, '_');
    assert Split(name, '_') == tokens;
  }

  /** Only the first `SQ` is dropped: the sequence token `SQSQ1` gives `SQ1`. */
  lemma StripsLeadingSQOnce(rest: string)
    ensures ReplaceFirst("SQ" + rest, "SQ", "") == rest
  {
    var s := "SQ" + rest;
    assert s[0..2] == "SQ";
    assert IsFirstOccurrence(s, "SQ", 0);
    ReplaceFirstOccurrence(s, "SQ", "");
  }

  /** `Show_SQ010_Extra_v03` names sequence `010`, version `v03`. */
  lemma ParseExample()
    ensures ParseFileName("Show_SQ010_Extra_v03") == Success(ParsedName("010", "v03"))
  {
    var tokens := ["Show", "SQ010", "Extra", "v03"];
    assert Join(tokens, '_') == "Show_SQ010_Extra_v03";
    ParseJoinedName(tokens);
    StripsLeadingSQOnce("010");
    assert "SQ" + "010" == "SQ010";
  }
}
