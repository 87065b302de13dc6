/**
 * `organizeFiles` of CC_ExportCleans.js: the export folder's `.png` images
 * move to its `Panels` folder, its `.wav`, `.aif`, `.aiff` and `.mp3` files
 * to its `Audio` folder, and everything else stays. A folder is the list of
 * names the host lists for it; a `*<ext>` filter keeps the names ending in
 * `<ext>`, in listing order.
 */
module FileOrganizer {
  import opened Strings

  const PanelFormat := ".png"

  /** `supportedAudioFormats`, in the order the script asks for them. */
  const AudioFormats: seq<string> := [".wav", ".aif", ".aiff", ".mp3"]

  /** `dir.entryList("*" + suffix)`: the names of the listing ending with `suffix`, in listing order. */
  function EntryList(listing: seq<string>, suffix: string): (r: seq<string>)
    ensures |r| <= |listing|
  {
    if listing == [] then []
    else (if HasSuffix(listing[0], suffix) then [listing[0]] else []) + EntryList(listing[1..], suffix)
  }

  /** The names of the listing not ending with `suffix`, in listing order. */
  function DropSuffix(listing: seq<string>, suffix: string): seq<string>
  {
    if listing == [] then []
    else (if HasSuffix(listing[0], suffix) then [] else [listing[0]]) + DropSuffix(listing[1..], suffix)
  }

  /** The entry lists for `formats` one after the other, as the script collects them. */
  function Gather(listing: seq<string>, formats: seq<string>): seq<string>
  {
    if formats == [] then []
    else Gather(listing, formats[..|formats| - 1]) + EntryList(listing, formats[|formats| - 1])
  }

  /** `audioFiles`: the audio names of the listing, grouped by format in `AudioFormats` order. */
  function AudioFiles(listing: seq<string>): seq<string>
  {
    Gather(listing, AudioFormats)
  }

  predicate IsPanelImage(name: string)
  {
    HasSuffix(name, PanelFormat)
  }

  predicate IsAudio(name: string)
  {
    exists e :: e in AudioFormats && HasSuffix(name, e)
  }

  /** The names of the listing that are not audio, in listing order. */
  function DropAudio(listing: seq<string>): seq<string>
  {
    if listing == [] then []
    else (if IsAudio(listing[0]) then [] else [listing[0]]) + DropAudio(listing[1..])
  }

  /** What stays in the export folder: neither a panel image nor audio. */
  function Kept(listing: seq<string>): seq<string>
  {
    DropAudio(DropSuffix(listing, PanelFormat))
  }

  /** The listing after the names in `names` have been moved away. */
  function WithoutAll(listing: seq<string>, names: seq<string>): seq<string>
  {
    if listing == [] then []
    else (if listing[0] in names then [] else [listing[0]]) + WithoutAll(listing[1..], names)
  }

  /** The audio list is the four entry lists, `.wav` first and `.mp3` last. */
  lemma AudioFilesByFormat(listing: seq<string>)
    ensures AudioFiles(listing)
            == EntryList(listing, ".wav") + EntryList(listing, ".aif")
               + EntryList(listing, ".aiff") + EntryList(listing, ".mp3")
  {
    var f := AudioFormats;
    var w, a, ff, m := EntryList(listing, ".wav"), EntryList(listing, ".aif"),
                       EntryList(listing, ".aiff"), EntryList(listing, ".mp3");
    assert f[..1][..0] == [] && f[..1][0] == ".wav";
    assert Gather(listing, f[..1]) == w;
    assert f[..2][..1] == f[..1] && f[..2][1] == ".aif";
    assert Gather(listing, f[..2]) == w + a;
    assert f[..3][..2] == f[..2] && f[..3][2] == ".aiff";
    assert Gather(listing, f[..3]) == w + a + ff;
    assert f[..3] == f[..|f| - 1] && f[3] == ".mp3";
  }

  /** An entry list holds exactly the listed names with the suffix. */
  lemma {:induction false} EntryListMembers(listing: seq<string>, suffix: string)
    ensures forall x :: x in EntryList(listing, suffix) <==> x in listing && HasSuffix(x, suffix)
  {
    if listing != [] {
      EntryListMembers(listing[1..], suffix);
      assert listing == [listing[0]] + listing[1..];
    }
  }

  /** The audio list holds exactly the listed audio names. */
  lemma {:induction false} GatherMembers(listing: seq<string>, formats: seq<string>)
    ensures forall x :: x in Gather(listing, formats) <==> x in listing && exists e :: e in formats && HasSuffix(x, e)
  {
    if formats != [] {
      var init, last := formats[..|formats| - 1], formats[|formats| - 1];
      GatherMembers(listing, init);
      EntryListMembers(listing, last);
      assert formats == init + [last];
    }
  }

  /** If one suffix of a name is at most as long as another, it is a suffix of the other. */
  lemma SuffixOfSuffix(name: string, a: string, b: string)
    requires HasSuffix(name, a) && HasSuffix(name, b) && |a| <= |b|
    ensures HasSuffix(b, a)
  {
    assert b[|b| - |a|..] == name[|name| - |a|..];
  }

  /** A name falls under at most one of `.png`, `.wav`, `.aif`, `.aiff`, `.mp3`. */
  lemma FormatsExclusive(name: string, a: string, b: string)
    requires a in [PanelFormat] + AudioFormats && b in [PanelFormat] + AudioFormats
    requires HasSuffix(name, a) && HasSuffix(name, b)
    ensures a == b
  {
    if |a| <= |b| {
      SuffixOfSuffix(name, a, b);
    } else {
      SuffixOfSuffix(name, b, a);
    }
  }

  /** Removing no name changes nothing. */
  lemma {:induction false} WithoutNothing(listing: seq<string>)
    ensures WithoutAll(listing, []) == listing
  {
    if listing != [] {
      WithoutNothing(listing[1..]);
      assert listing == [listing[0]] + listing[1..];
    }
  }

  /** Removing the names one at a time is removing the whole list. */
  lemma {:induction false} WithoutAllStep(listing: seq<string>, names: seq<string>, name: string)
    ensures WithoutAll(WithoutAll(listing, names), [name]) == WithoutAll(listing, names + [name])
  {
    if listing != [] {
      var x, rest := listing[0], listing[1..];
      WithoutAllStep(rest, names, name);
      var w := WithoutAll(rest, names);
      var all := names + [name];
      assert x in all <==> x in names || x == name;
      assert WithoutAll(listing, all) == (if x in all then [] else [x]) + WithoutAll(rest, all);
      if x in names {
        assert WithoutAll(listing, names) == w;
      } else {
        assert WithoutAll(listing, names) == [x] + w;
        assert ([x] + w)[0] == x && ([x] + w)[1..] == w;
        assert WithoutAll([x] + w, [name]) == (if x in [name] then [] else [x]) + WithoutAll(w, [name]);
      }
    }
  }

  /** Removing exactly the listed names with `suffix` drops the suffix. */
  lemma {:induction false} WithoutListedSuffix(listing: seq<string>, names: seq<string>, suffix: string)
    requires forall x :: x in listing ==> (x in names <==> HasSuffix(x, suffix))
    ensures WithoutAll(listing, names) == DropSuffix(listing, suffix)
  {
    if listing != [] {
      WithoutListedSuffix(listing[1..], names, suffix);
    }
  }

  /** Removing exactly the listed audio names drops the audio. */
  lemma {:induction false} WithoutListedAudio(listing: seq<string>, names: seq<string>)
    requires forall x :: x in listing ==> (x in names <==> IsAudio(x))
    ensures WithoutAll(listing, names) == DropAudio(listing)
  {
    if listing != [] {
      WithoutListedAudio(listing[1..], names);
    }
  }

  /** Taking the panel images out first does not change which audio files are found. */
  lemma {:induction false} EntryListSkipsPanels(listing: seq<string>, suffix: string)
    requires suffix in AudioFormats
    ensures EntryList(DropSuffix(listing, PanelFormat), suffix) == EntryList(listing, suffix)
  {
    if listing != [] {
      var x, rest := listing[0], listing[1..];
      EntryListSkipsPanels(rest, suffix);
      var d := DropSuffix(rest, PanelFormat);
      assert EntryList(listing, suffix) == (if HasSuffix(x, suffix) then [x] else []) + EntryList(rest, suffix);
      if HasSuffix(x, PanelFormat) {
        assert DropSuffix(listing, PanelFormat) == d;
        if HasSuffix(x, suffix) {
          FormatsExclusive(x, PanelFormat, suffix);
        }
      } else {
        assert DropSuffix(listing, PanelFormat) == [x] + d;
        assert ([x] + d)[0] == x && ([x] + d)[1..] == d;
        assert EntryList([x] + d, suffix) == (if HasSuffix(x, suffix) then [x] else []) + EntryList(d, suffix);
      }
    }
  }

  lemma AudioFilesSkipPanels(listing: seq<string>)
    ensures AudioFiles(DropSuffix(listing, PanelFormat)) == AudioFiles(listing)
  {
    AudioFilesByFormat(listing);
    AudioFilesByFormat(DropSuffix(listing, PanelFormat));
    EntryListSkipsPanels(listing, ".wav");
    EntryListSkipsPanels(listing, ".aif");
    EntryListSkipsPanels(listing, ".aiff");
    EntryListSkipsPanels(listing, ".mp3");
  }

  /** A listing without audio names is left as it is by `DropAudio`. */
  lemma {:induction false} DropAudioNoAudio(listing: seq<string>)
    requires forall x :: x in listing ==> !IsAudio(x)
    ensures DropAudio(listing) == listing
  {
    if listing != [] {
      DropAudioNoAudio(listing[1..]);
      assert listing == [listing[0]] + listing[1..];
    }
  }

  /** How the first listed name decides what stays. */
  lemma KeptFirst(listing: seq<string>)
    requires listing != []
    ensures Kept(listing)
            == (if IsPanelImage(listing[0]) || IsAudio(listing[0]) then [] else [listing[0]]) + Kept(listing[1..])
  {
    var x, d := listing[0], DropSuffix(listing[1..], PanelFormat);
    if IsPanelImage(x) {
      assert DropSuffix(listing, PanelFormat) == d;
    } else {
      assert DropSuffix(listing, PanelFormat) == [x] + d;
      assert ([x] + d)[0] == x && ([x] + d)[1..] == d;
      assert DropAudio([x] + d) == (if IsAudio(x) then [] else [x]) + DropAudio(d);
    }
  }

  /** Which of `.png`, `.wav`, `.aif`, `.aiff`, `.mp3` a name ends with: at most one. */
  lemma Classify(name: string)
    ensures IsAudio(name)
            <==> HasSuffix(name, ".wav") || HasSuffix(name, ".aif") || HasSuffix(name, ".aiff") || HasSuffix(name, ".mp3")
    ensures IsPanelImage(name) ==> !IsAudio(name)
    ensures HasSuffix(name, ".wav") ==> !HasSuffix(name, ".aif") && !HasSuffix(name, ".aiff") && !HasSuffix(name, ".mp3")
    ensures HasSuffix(name, ".aif") ==> !HasSuffix(name, ".aiff") && !HasSuffix(name, ".mp3")
    ensures HasSuffix(name, ".aiff") ==> !HasSuffix(name, ".mp3")
  {
    var formats := [PanelFormat] + AudioFormats;
    assert formats == [".png", ".wav", ".aif", ".aiff", ".mp3"];
    forall a, b | a in formats && b in formats && HasSuffix(name, a) && HasSuffix(name, b)
      ensures a == b
    {
      FormatsExclusive(name, a, b);
    }
  }

  /** One entry list and the rest of the listing share out its names. */
  lemma {:induction false} SuffixSplitConserves(listing: seq<string>, suffix: string)
    ensures multiset(listing) == multiset(EntryList(listing, suffix)) + multiset(DropSuffix(listing, suffix))
  {
    if listing != [] {
      SuffixSplitConserves(listing[1..], suffix);
      assert listing == [listing[0]] + listing[1..];
    }
  }

  /** The first listed name is in the audio list once if it is audio, and not at all otherwise. */
  lemma AudioFilesFirst(listing: seq<string>)
    requires listing != []
    ensures multiset(AudioFiles(listing))
            == (if IsAudio(listing[0]) then multiset{listing[0]} else multiset{}) + multiset(AudioFiles(listing[1..]))
  {
    var x, rest := listing[0], listing[1..];
    var w, a, f, m := EntryList(rest, ".wav"), EntryList(rest, ".aif"), EntryList(rest, ".aiff"), EntryList(rest, ".mp3");
    var w', a', f', m' := EntryList(listing, ".wav"), EntryList(listing, ".aif"), EntryList(listing, ".aiff"), EntryList(listing, ".mp3");
    var hw, ha, hf, hm := HasSuffix(x, ".wav"), HasSuffix(x, ".aif"), HasSuffix(x, ".aiff"), HasSuffix(x, ".mp3");
    assert multiset(AudioFiles(rest)) == multiset(w) + multiset(a) + multiset(f) + multiset(m) by {
      AudioFilesByFormat(rest);
    }
    assert multiset(AudioFiles(listing)) == multiset(w') + multiset(a') + multiset(f') + multiset(m') by {
      AudioFilesByFormat(listing);
    }
    assert multiset(w') == (if hw then multiset{x} else multiset{}) + multiset(w);
    assert multiset(a') == (if ha then multiset{x} else multiset{}) + multiset(a);
    assert multiset(f') == (if hf then multiset{x} else multiset{}) + multiset(f);
    assert multiset(m') == (if hm then multiset{x} else multiset{}) + multiset(m);
    assert IsAudio(x) <==> hw || ha || hf || hm by {
      Classify(x);
    }
    assert (hw ==> !ha && !hf && !hm) && (ha ==> !hf && !hm) && (hf ==> !hm) by {
      Classify(x);
    }
    OneOfFourGroups(x, multiset(w), multiset(a), multiset(f), multiset(m), hw, ha, hf, hm);
  }

  /** Adding a name to at most one of four groups adds it to their union at most once. */
  lemma OneOfFourGroups(x: string, w: multiset<string>, a: multiset<string>, f: multiset<string>, m: multiset<string>,
                        hw: bool, ha: bool, hf: bool, hm: bool)
    requires (hw ==> !ha && !hf && !hm) && (ha ==> !hf && !hm) && (hf ==> !hm)
    ensures ((if hw then multiset{x} else multiset{}) + w) + ((if ha then multiset{x} else multiset{}) + a)
            + ((if hf then multiset{x} else multiset{}) + f) + ((if hm then multiset{x} else multiset{}) + m)
            == (if hw || ha || hf || hm then multiset{x} else multiset{}) + (w + a + f + m)
  {
  }

  /** The audio list and the non-audio names share out the listing's names. */
  lemma {:induction false} AudioSplitConserves(listing: seq<string>)
    ensures multiset(listing) == multiset(AudioFiles(listing)) + multiset(DropAudio(listing))
  {
    if listing == [] {
      AudioFilesByFormat(listing);
    } else {
      AudioSplitConserves(listing[1..]);
      AudioFilesFirst(listing);
      assert listing == [listing[0]] + listing[1..];
    }
  }

  /**
   * Sorting loses and duplicates nothing: every listed name ends in exactly one
   * of what stays, the panel images and the audio files.
   */
  lemma SortingConservesFiles(listing: seq<string>)
    ensures multiset(listing)
            == multiset(Kept(listing)) + multiset(EntryList(listing, PanelFormat)) + multiset(AudioFiles(listing))
  {
    var rest := DropSuffix(listing, PanelFormat);
    SuffixSplitConserves(listing, PanelFormat);
    AudioSplitConserves(rest);
    AudioFilesSkipPanels(listing);
  }

  /** What stays is exactly the listed names that are neither panel images nor audio. */
  lemma {:induction false} KeptMembers(listing: seq<string>, name: string)
    ensures name in Kept(listing) <==> name in listing && !IsPanelImage(name) && !IsAudio(name)
  {
    if listing != [] {
      KeptMembers(listing[1..], name);
      KeptFirst(listing);
      assert listing == [listing[0]] + listing[1..];
    }
  }

  /** Where each listed name ends up, by its name alone. */
  lemma Destinations(listing: seq<string>, name: string)
    requires name in listing
    ensures IsPanelImage(name) ==> name in EntryList(listing, PanelFormat) && name !in AudioFiles(listing)
    ensures IsAudio(name) ==> name in AudioFiles(listing) && name !in EntryList(listing, PanelFormat)
    ensures !IsPanelImage(name) && !IsAudio(name) ==>
              name in Kept(listing) && name !in EntryList(listing, PanelFormat) && name !in AudioFiles(listing)
  {
    EntryListMembers(listing, PanelFormat);
    GatherMembers(listing, AudioFormats);
    Classify(name);
    KeptMembers(listing, name);
  }

  /** A `.png`, a `.wav` and a `.txt`: the image goes to `Panels`, the sound to `Audio`, the text stays. */
  lemma SortingExample()
    ensures EntryList(["a.png", "b.wav", "c.txt"], PanelFormat) == ["a.png"]
    ensures AudioFiles(["a.png", "b.wav", "c.txt"]) == ["b.wav"]
    ensures Kept(["a.png", "b.wav", "c.txt"]) == ["c.txt"]
  {
    var listing := ["a.png", "b.wav", "c.txt"];
    var two, one := ["b.wav", "c.txt"], ["c.txt"];
    assert listing[1..] == two && two[1..] == one && one[1..] == [];
    assert IsPanelImage("a.png") && !IsAudio("a.png") by { Classify("a.png"); }
    assert HasSuffix("b.wav", ".wav") && !IsPanelImage("b.wav") && IsAudio("b.wav") by { Classify("b.wav"); }
    assert !HasSuffix("b.wav", ".aif") && !HasSuffix("b.wav", ".aiff") && !HasSuffix("b.wav", ".mp3") by { Classify("b.wav"); }
    assert !IsPanelImage("c.txt") && !IsAudio("c.txt") by { Classify("c.txt"); }
    assert !HasSuffix("c.txt", ".wav") && !HasSuffix("c.txt", ".aif") && !HasSuffix("c.txt", ".aiff") && !HasSuffix("c.txt", ".mp3") by { Classify("c.txt"); }
    assert !HasSuffix("a.png", ".wav") && !HasSuffix("a.png", ".aif") && !HasSuffix("a.png", ".aiff") && !HasSuffix("a.png", ".mp3") by { Classify("a.png"); }
    assert EntryList(listing, PanelFormat) == ["a.png"];
    var w, a, f, m := EntryList(listing, ".wav"), EntryList(listing, ".aif"), EntryList(listing, ".aiff"), EntryList(listing, ".mp3");
    assert w == ["b.wav"] && a == [] && f == [] && m == [];
    assert AudioFiles(listing) == w + a + f + m by {
      AudioFilesByFormat(listing);
    }
    assert w + a + f + m == w by {
      AppendEmpty(w, a, f, m);
    }
    assert Kept(listing) == ["c.txt"] by {
      KeptFirst(listing);
      KeptFirst(two);
      KeptFirst(one);
    }
  }

  lemma AppendEmpty(w: seq<string>, a: seq<string>, f: seq<string>, m: seq<string>)
    requires a == [] && f == [] && m == []
    ensures w + a + f + m == w
  {
  }

  /** The nested loop that builds `audioFiles`: every audio format in turn, every listed name of that format. */
  method CollectAudio(listing: seq<string>) returns (audioFiles: seq<string>)
    ensures audioFiles == AudioFiles(listing)
  {
    audioFiles := [];
    for format := 0 to |AudioFormats|
      invariant audioFiles == Gather(listing, AudioFormats[..format])
    {
      var list := EntryList(listing, AudioFormats[format]);
      ghost var before := audioFiles;
      for audio := 0 to |list|
        invariant audioFiles == before + list[..audio]
      {
        audioFiles := audioFiles + [list[audio]];
      }
      assert audioFiles == before + list by {
        assert list[..|list|] == list;
      }
      GatherStep(listing, AudioFormats, format);
    }
    assert AudioFormats[..|AudioFormats|] == AudioFormats;
  }

  /** Gathering one more format appends its entry list. */
  lemma GatherStep(listing: seq<string>, formats: seq<string>, k: nat)
    requires k < |formats|
    ensures Gather(listing, formats[..k + 1]) == Gather(listing, formats[..k]) + EntryList(listing, formats[k])
  {
    assert formats[..k + 1][..k] == formats[..k];
  }

  /** The export folder and its two destination folders, as the names they list. */
  class ExportTree {
    var root: seq<string>
    var panels: seq<string>
    var audio: seq<string>

    /** A freshly made export folder: its exports listed, `Panels` and `Audio` empty. */
    constructor (exported: seq<string>)
      ensures root == exported && panels == [] && audio == []
    {
      root := exported;
      panels := [];
      audio := [];
    }

    /** `dir.rename` of a name from the export folder into `Panels`. */
    method MoveToPanels(name: string)
      modifies this
      ensures root == WithoutAll(old(root), [name])
      ensures panels == old(panels) + [name] && audio == old(audio)
    {
      root := WithoutAll(root, [name]);
      panels := panels + [name];
    }

    /** `dir.rename` of a name from the export folder into `Audio`. */
    method MoveToAudio(name: string)
      modifies this
      ensures root == WithoutAll(old(root), [name])
      ensures audio == old(audio) + [name] && panels == old(panels)
    {
      root := WithoutAll(root, [name]);
      audio := audio + [name];
    }

    /**
     * `organizeFiles`: move the `*.png` entries, then collect the audio entries
     * format by format and, if there are any, move them.
     */
    method OrganizeFiles()
      modifies this
      ensures panels == old(panels) + EntryList(old(root), PanelFormat)
      ensures audio == old(audio) + AudioFiles(old(root))
      ensures root == Kept(old(root))
    {
      ghost var exported := root;
      var pngs := EntryList(root, PanelFormat);
      EntryListMembers(exported, PanelFormat);
      WithoutNothing(exported);
      for i := 0 to |pngs|
        invariant root == WithoutAll(exported, pngs[..i])
        invariant panels == old(panels) + pngs[..i] && audio == old(audio)
      {
        WithoutAllStep(exported, pngs[..i], pngs[i]);
        assert pngs[..i + 1] == pngs[..i] + [pngs[i]];
        MoveToPanels(pngs[i]);
      }
      assert pngs[..|pngs|] == pngs;
      WithoutListedSuffix(exported, pngs, PanelFormat);
      ghost var remaining := root;

      var audioFiles := CollectAudio(root);
      AudioFilesSkipPanels(exported);
      GatherMembers(remaining, AudioFormats);
      if |audioFiles| == 0 {
        DropAudioNoAudio(remaining);
        return;
      }
      WithoutNothing(remaining);

      for i := 0 to |audioFiles|
        invariant root == WithoutAll(remaining, audioFiles[..i])
        invariant audio == old(audio) + audioFiles[..i]
        invariant panels == old(panels) + pngs
      {
        WithoutAllStep(remaining, audioFiles[..i], audioFiles[i]);
        assert audioFiles[..i + 1] == audioFiles[..i] + [audioFiles[i]];
        MoveToAudio(audioFiles[i]);
      }
      assert audioFiles[..|audioFiles|] == audioFiles;
      WithoutListedAudio(remaining, audioFiles);
    }
  }
}
