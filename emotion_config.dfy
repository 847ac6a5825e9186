/** `update_config_with_base64` (ocbotpy/examples/gif2base64.py:20-72): adds one entry per
    `*.png` file to the `emotion_mapping` of the emotion config, keyed by the file's stem and
    holding the file's base64 text. Reading and writing the YAML file, `glob` and the base64
    conversion are inputs: the outcome of the read, the file list in glob order, and
    `encode`, which gives `gif_to_base64`'s result for a file name. */
module EmotionConfig {
  import opened Wrappers
  import opened PyStrings

  /** The position of the last `.` in `s`, if any. */
  function LastDot(s: string): (r: Option<nat>)
    ensures r.Some? ==> r.value < |s| && s[r.value] == '.'
    ensures r.Some? ==> forall j :: r.value < j < |s| ==> s[j] != '.'
    ensures r.None? ==> forall j :: 0 <= j < |s| ==> s[j] != '.'
  {
    if s == [] then None
    else if s[|s| - 1] == '.' then Some(|s| - 1)
    else LastDot(s[..|s| - 1])
  }

  predicate AllDots(s: string) {
    forall j :: 0 <= j < |s| ==> s[j] == '.'
  }

  /** `os.path.splitext(name)[0]` for a name without a directory part: everything before the
      last `.`, unless only dots precede it (a name like `.png` or `..x` has no extension). */
  function Stem(name: string): (stem: string)
    ensures stem <= name
    ensures stem != name ==> && name[|stem|] == '.' && !AllDots(stem)
                             && forall j :: |stem| < j < |name| ==> name[j] != '.'
  {
    match LastDot(name)
    case None => name
    case Some(i) => if AllDots(name[..i]) then name else name[..i]
  }

  /** A name that `glob("*.png")` yields, `s + ".png"` with `s` not starting with a dot,
      has stem `s`. */
  lemma PngStem(s: string)
    requires s != [] && s[0] != '.'
    ensures Stem(s + ".png") == s
  {
    var name := s + ".png";
    var n1, n2, n3 := s + ".pn", s + ".p", s + ".";
    assert name[..|name| - 1] == n1 && name[|name| - 1] == 'g';
    assert n1[..|n1| - 1] == n2 && n1[|n1| - 1] == 'n';
    assert n2[..|n2| - 1] == n3 && n2[|n2| - 1] == 'p';
    assert LastDot(name) == LastDot(n1) == LastDot(n2) == LastDot(n3) == Some(|s|);
    assert name[..|s|] == s;
    assert !AllDots(s) by {
      assert s[0] != '.';
    }
  }

  /** The emotion mapping: keyword to base64 payload. */
  type EmotionMap = map<string, string>

  /** The merge loop of lines 49-64 over `files`, from `m`: a file whose stem is already a key
      is skipped, and otherwise its encoding is added when it is truthy. */
  function Merge(m: EmotionMap, files: seq<string>, encode: string -> Option<string>): (r: EmotionMap)
    decreases |files|
    ensures forall key :: key in m ==> key in r && r[key] == m[key]
    ensures forall key :: key in r && key !in m ==> r[key] != []
    ensures |r| <= |m| + |files|
  {
    if files == [] then m
    else
      var key := Stem(files[0]);
      if key in m then Merge(m, files[1..], encode)
      else if Truthy(encode(files[0])) then Merge(m[key := encode(files[0]).value], files[1..], encode)
      else Merge(m, files[1..], encode)
  }

  /** `file` has stem `key` and encodes to a non-empty string. */
  predicate Encodes(file: string, key: string, encode: string -> Option<string>) {
    Stem(file) == key && Truthy(encode(file))
  }

  /** The index of the first file with stem `key` that encodes to a non-empty string. */
  function FirstSuccess(files: seq<string>, key: string, encode: string -> Option<string>): (r: Option<nat>)
    ensures r.Some? ==> r.value < |files| && Encodes(files[r.value], key, encode)
    ensures r.Some? ==> forall j :: 0 <= j < r.value ==> !Encodes(files[j], key, encode)
    ensures r.None? ==> forall j :: 0 <= j < |files| ==> !Encodes(files[j], key, encode)
  {
    if |files| == 0 then None
    else if Encodes(files[0], key, encode) then Some(0)
    else
      var rest := files[1..];
      match FirstSuccess(rest, key, encode)
      case None =>
        assert forall j :: 1 <= j < |files| ==> files[j] == rest[j - 1];
        None
      case Some(i) =>
        assert files[i + 1] == rest[i];
        assert forall j :: 1 <= j <= i ==> files[j] == rest[j - 1];
        Some(i + 1)
  }

  /** What the merge leaves under each key: the old entry if there was one, else the
      encoding of the first file with that stem that encodes, else nothing. */
  lemma {:induction false} MergeEntry(m: EmotionMap, files: seq<string>, encode: string -> Option<string>, key: string)
    decreases |files|
    ensures key in Merge(m, files, encode) <==> key in m || FirstSuccess(files, key, encode).Some?
    ensures key in Merge(m, files, encode) && key !in m ==>
              Merge(m, files, encode)[key] == encode(files[FirstSuccess(files, key, encode).value]).value
    ensures key in m ==> Merge(m, files, encode)[key] == m[key]
  {
    if files != [] {
      var k := Stem(files[0]);
      if k in m {
        MergeEntry(m, files[1..], encode, key);
      } else if Truthy(encode(files[0])) {
        MergeEntry(m[k := encode(files[0]).value], files[1..], encode, key);
      } else {
        MergeEntry(m, files[1..], encode, key);
      }
    }
  }

  /** Every new key is the stem of a listed file whose encoding succeeded, and holds that
      encoding. */
  lemma KeyOrigin(m: EmotionMap, files: seq<string>, encode: string -> Option<string>, key: string)
    requires key in Merge(m, files, encode) && key !in m
    ensures exists i :: && 0 <= i < |files| && Stem(files[i]) == key
                        && encode(files[i]) == Some(Merge(m, files, encode)[key])
                        && Merge(m, files, encode)[key] != []
  {
    MergeEntry(m, files, encode, key);
    var i := FirstSuccess(files, key, encode).value;
    assert encode(files[i]) == Some(Merge(m, files, encode)[key]);
  }

  /** Files whose encodings all come back `None` or empty add no entry for their stem. */
  lemma FailedEncodingsAddNothing(m: EmotionMap, files: seq<string>, encode: string -> Option<string>, key: string)
    requires key !in m
    requires forall i :: 0 <= i < |files| && Stem(files[i]) == key ==> !Truthy(encode(files[i]))
    ensures key !in Merge(m, files, encode)
  {
    MergeEntry(m, files, encode, key);
  }

  /** Among files sharing a stem that is not yet a key, the first one that encodes supplies
      the entry; later files with that stem are skipped. */
  lemma FirstFileWins(m: EmotionMap, files: seq<string>, encode: string -> Option<string>, i: nat)
    requires i < |files| && Stem(files[i]) !in m && Truthy(encode(files[i]))
    requires forall j :: 0 <= j < i && Stem(files[j]) == Stem(files[i]) ==> !Truthy(encode(files[j]))
    ensures Stem(files[i]) in Merge(m, files, encode)
    ensures Merge(m, files, encode)[Stem(files[i])] == encode(files[i]).value
  {
    var key := Stem(files[i]);
    assert Encodes(files[i], key, encode);
    var first := FirstSuccess(files, key, encode);
    assert first.Some? && first.value == i;
    MergeEntry(m, files, encode, key);
  }

  /** Running the merge a second time over the same files changes nothing. */
  lemma MergeIdempotent(m: EmotionMap, files: seq<string>, encode: string -> Option<string>)
    ensures Merge(Merge(m, files, encode), files, encode) == Merge(m, files, encode)
  {
    var once := Merge(m, files, encode);
    forall key | true
      ensures key in Merge(once, files, encode) <==> key in once
      ensures key in once ==> Merge(once, files, encode)[key] == once[key]
    {
      MergeEntry(m, files, encode, key);
      MergeEntry(once, files, encode, key);
    }
  }

  /** The top level of the config: `emotion_mapping` (absent: `None`) and the other keys. */
  datatype Config = Config(emotionMapping: Option<EmotionMap>, otherKeys: map<string, string>)

  /** The outcome of reading the config file: it does not exist, reading or parsing raised,
      or it parsed to a document (`None`: an empty document). */
  datatype Loaded = FileMissing | ReadFailed | Parsed(doc: Option<Config>)

  /** The config the merge starts from: a missing file and an empty document count as `{}`. */
  function StartConfig(loaded: Loaded): Config {
    match loaded
    case Parsed(Some(config)) => config
    case _ => Config(None, map[])
  }

  /** `update_config_with_base64`: returns the config it writes back, or `None` when it
      returns early (the read raised, or there are no png files). Only `emotion_mapping`
      changes; a missing one starts empty. */
  method UpdateConfigWithBase64(loaded: Loaded, pngFiles: seq<string>, encode: string -> Option<string>)
    returns (written: Option<Config>)
    ensures written.None? <==> loaded.ReadFailed? || pngFiles == []
    ensures written.Some? ==>
              written.value == StartConfig(loaded).(emotionMapping :=
                Some(Merge(StartConfig(loaded).emotionMapping.GetOr(map[]), pngFiles, encode)))
  {
    var config: Config;
    match loaded {
      case ReadFailed =>
        return None;
      case FileMissing =>
        config := Config(None, map[]);
      case Parsed(doc) =>
        config := if doc.None? then Config(None, map[]) else doc.value;
    }
    if pngFiles == [] {
      return None;
    }
    if config.emotionMapping.None? {
      config := config.(emotionMapping := Some(map[]));
    }
    var mapping := config.emotionMapping.value;
    ghost var start := mapping;
    for i := 0 to |pngFiles|
      invariant Merge(mapping, pngFiles[i..], encode) == Merge(start, pngFiles, encode)
    {
      assert pngFiles[i..][1..] == pngFiles[i + 1..];
      var emotionKey := Stem(pngFiles[i]);
      if emotionKey in mapping {
        continue;
      }
      var base64String := encode(pngFiles[i]);
      if Truthy(base64String) {
        mapping := mapping[emotionKey := base64String.value];
      }
    }
    config := config.(emotionMapping := Some(mapping));
    return Some(config);
  }
}
