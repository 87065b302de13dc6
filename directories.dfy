/**
 * The dated export folder of `createDirectories` in CC_ExportCleans.js: the
 * first name in the order `<date>_CLEANS`, `<date>_CLEANS_02`,
 * `<date>_CLEANS_03`, ... that is not taken in the export directory, and the
 * four paths built from it. The directory is the set of names in it.
 */
module Directories {
  import opened JsValues
  import Strings
  import DateStamp

  /** The `k`-th name tried: `k = 0` is the bare name, `k >= 1` carries the suffix `_` and `padNumber(k + 1)`. */
  function Candidate(todayDate: JsValue, k: nat): string
  {
    if k == 0 then ToStr(todayDate) + "_CLEANS"
    else ToStr(todayDate) + "_CLEANS_" + DateStamp.Padded(k + 1)
  }

  /**
   * The names the script builds with `+`: the bare name, and for
   * `folderVersion >= 2` the name with `_` and `padNumber(folderVersion)`,
   * which is `_02` ... `_09`, then `_10`, `_11`, ... without further padding.
   */
  lemma CandidateSpelling(todayDate: JsValue, folderVersion: nat)
    requires folderVersion >= 2
    ensures ToStr(Plus(todayDate, Str("_CLEANS"))) == Candidate(todayDate, 0)
    ensures ToStr(Plus(Plus(Plus(todayDate, Str("_CLEANS")), Str("_")), DateStamp.PadNumber(folderVersion)))
            == Candidate(todayDate, folderVersion - 1)
  {
    DateStamp.PadNumberPadsSingleDigits(folderVersion);
    assert ToStr(todayDate) + "_CLEANS" + "_" == ToStr(todayDate) + "_CLEANS_";
  }

  /** No name is tried twice. */
  lemma CandidateInjective(todayDate: JsValue, i: nat, j: nat)
    requires Candidate(todayDate, i) == Candidate(todayDate, j)
    ensures i == j
  {
    var prefix := ToStr(todayDate) + "_CLEANS_";
    if i >= 1 && j >= 1 {
      SamePrefixSameRest(prefix, DateStamp.Padded(i + 1), DateStamp.Padded(j + 1));
      DateStamp.PaddedRoundTrip(i + 1);
      DateStamp.PaddedRoundTrip(j + 1);
    }
  }

  lemma SamePrefixSameRest(prefix: string, a: string, b: string)
    requires prefix + a == prefix + b
    ensures a == b
  {
    assert a == (prefix + a)[|prefix|..];
    assert b == (prefix + b)[|prefix|..];
  }

  /** `name` is the first candidate not in `existing`: all the candidates before it are taken. */
  ghost predicate IsFirstFree(existing: set<string>, todayDate: JsValue, name: string)
  {
    exists k: nat ::
      name == Candidate(todayDate, k) && name !in existing
      && forall j: nat :: j < k ==> Candidate(todayDate, j) in existing
  }

  /** The first free candidate is unique. */
  lemma FirstFreeUnique(existing: set<string>, todayDate: JsValue, a: string, b: string)
    requires IsFirstFree(existing, todayDate, a) && IsFirstFree(existing, todayDate, b)
    ensures a == b
  {
    var i: nat :| a == Candidate(todayDate, i) && a !in existing
                  && forall j: nat :: j < i ==> Candidate(todayDate, j) in existing;
    var k: nat :| b == Candidate(todayDate, k) && b !in existing
                  && forall j: nat :: j < k ==> Candidate(todayDate, j) in existing;
  }

  /**
   * The `while (dir.fileExists(folderName))` loop: try candidates in order
   * until one is free. It ends for every finite directory, because each
   * candidate it rejects is a different member of `existing`.
   */
  method ChooseFolderName(existing: set<string>, todayDate: JsValue) returns (folderName: string)
    ensures IsFirstFree(existing, todayDate, folderName)
  {
    folderName := ToStr(Plus(todayDate, Str("_CLEANS")));
    var folderVersion := 2;
    CandidateSpelling(todayDate, folderVersion);
    ghost var rejected: set<string> := {};
    while folderName in existing
      invariant folderVersion >= 2
      invariant folderName == Candidate(todayDate, folderVersion - 2)
      invariant forall j: nat :: j < folderVersion - 2 ==> Candidate(todayDate, j) in existing
      invariant forall x :: x in rejected ==> exists j: nat :: j < folderVersion - 2 && x == Candidate(todayDate, j)
      invariant rejected <= existing && |rejected| == folderVersion - 2
      decreases |existing| - |rejected|
    {
      assert folderName !in rejected by {
        forall x | x in rejected ensures x != folderName {
          var j: nat :| j < folderVersion - 2 && x == Candidate(todayDate, j);
          if x == folderName {
            CandidateInjective(todayDate, j, folderVersion - 2);
          }
        }
      }
      rejected := rejected + {folderName};
      assert |rejected| <= |existing| by {
        assert rejected <= existing;
        SubsetCardinality(rejected, existing);
      }
      folderName := ToStr(Plus(Plus(Plus(todayDate, Str("_CLEANS")), Str("_")), DateStamp.PadNumber(folderVersion)));
      CandidateSpelling(todayDate, folderVersion);
      folderVersion := folderVersion + 1;
    }
  }

  lemma SubsetCardinality(a: set<string>, b: set<string>)
    requires a <= b
    ensures |a| <= |b|
  {
    assert b == a + (b - a);
  }

  /** With `050824_CLEANS` and `050824_CLEANS_02` taken, the folder is `050824_CLEANS_03`. */
  lemma ThirdFolderExample(name: string)
    requires IsFirstFree({"050824_CLEANS", "050824_CLEANS_02"}, JsValue.Str("050824"), name)
    ensures name == "050824_CLEANS_03"
  {
    var existing := {"050824_CLEANS", "050824_CLEANS_02"};
    var d := JsValue.Str("050824");
    var third := "050824_CLEANS_03";
    FirstCandidatesOf050824();
    assert third !in existing by {
      assert third[15] != "050824_CLEANS_02"[15];
      assert |third| != |"050824_CLEANS"|;
    }
    assert forall j: nat :: j < 2 ==> Candidate(d, j) in existing by {
      forall j: nat | j < 2 ensures Candidate(d, j) in existing {
        if j == 0 {
          assert Candidate(d, 0) == "050824_CLEANS";
        } else {
          assert Candidate(d, 1) == "050824_CLEANS_02";
        }
      }
    }
    assert IsFirstFree(existing, d, third) by {
      assert third == Candidate(d, 2);
    }
    FirstFreeUnique(existing, d, name, third);
  }

  /** The first three names tried on 8 May 2024. */
  lemma FirstCandidatesOf050824()
    ensures Candidate(JsValue.Str("050824"), 0) == "050824_CLEANS"
    ensures Candidate(JsValue.Str("050824"), 1) == "050824_CLEANS_02"
    ensures Candidate(JsValue.Str("050824"), 2) == "050824_CLEANS_03"
  {
    assert DateStamp.Padded(2) == "02";
    assert DateStamp.Padded(3) == "03";
  }

  /**
   * On 10 October 2024 the stamp is the number 44, so the folder is
   * `44_CLEANS`; 11 October 2023 gives the same stamp and so the same folder names.
   */
  lemma LateDateFolder()
    ensures Candidate(DateStamp.GetDate(10, 10, 2024), 0) == "44_CLEANS"
    ensures DateStamp.GetDate(11, 10, 2023) == DateStamp.GetDate(10, 10, 2024)
    ensures forall k: nat :: Candidate(DateStamp.GetDate(11, 10, 2023), k) == Candidate(DateStamp.GetDate(10, 10, 2024), k)
  {
    DateStamp.GetDateAddsLateInYear();
    assert ToStr(Num(44)) == "44" by {
      assert Strings.Decimal(44) == "44";
    }
  }

  /** The paths `createDirectories` returns. */
  datatype ExportDirectories = ExportDirectories(
    cleansExportPath: string,
    movExportPath: string,
    panelsExportPath: string,
    audioExportPath: string)

  /** `dir.filePath(name)`: the name under the directory's path. */
  function FilePath(dirPath: string, name: string): (path: string)
    ensures |path| == |dirPath| + 1 + |name|
    ensures path[..|dirPath|] == dirPath && path[|dirPath|] == '/' && path[|dirPath| + 1..] == name
  {
    dirPath + "/" + name
  }

  /**
   * `createDirectories`: make the first free dated folder in the directory at
   * `exportPath` (whose names are `existing`) and the three subfolders in it.
   * Returns the paths, the directory's names afterwards and the new folder's names.
   */
  method CreateDirectories(exportPath: string, existing: set<string>, todayDate: JsValue)
    returns (dirs: ExportDirectories, entries: set<string>, subfolders: set<string>)
    ensures exists folderName ::
              IsFirstFree(existing, todayDate, folderName)
              && entries == existing + {folderName} && folderName !in existing
              && dirs.cleansExportPath == FilePath(exportPath, folderName)
              && dirs.movExportPath == FilePath(FilePath(exportPath, folderName), "Scene Quicktimes")
              && dirs.panelsExportPath == FilePath(FilePath(exportPath, folderName), "Panels")
              && dirs.audioExportPath == FilePath(FilePath(exportPath, folderName), "Audio")
    ensures subfolders == {"Scene Quicktimes", "Panels", "Audio"}
    ensures |entries| == |existing| + 1
  {
    var folderName := ChooseFolderName(existing, todayDate);
    entries := existing + {folderName};
    var cleansExportPath := FilePath(exportPath, folderName);
    subfolders := {};
    subfolders := subfolders + {"Scene Quicktimes"};
    subfolders := subfolders + {"Panels"};
    subfolders := subfolders + {"Audio"};
    dirs := ExportDirectories(
      cleansExportPath,
      FilePath(cleansExportPath, "Scene Quicktimes"),
      FilePath(cleansExportPath, "Panels"),
      FilePath(cleansExportPath, "Audio"));
  }
}
