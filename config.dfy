/** Recogniser configurations and the overlay's region presets
    (src/config/tesseract.ts). */
module Config {
  import opened Wrappers

  /** Tesseract page segmentation modes used by the two configurations. */
  datatype PageSegMode = SingleWord | SingleTextLine

  datatype RecognizerOptions = RecognizerOptions(
    charWhitelist: string,
    pageSegMode: PageSegMode,
    ocrEngineMode: int,
    preserveInterwordSpaces: Option<string>)

  datatype RecognizerConfig = RecognizerConfig(lang: string, options: RecognizerOptions)

  /** The configuration the OCR service applies to its worker. */
  const TesseractConfig: RecognizerConfig :=
    RecognizerConfig("eng", RecognizerOptions("0123456789:.", SingleWord, 3, Some("1")))

  /** A tighter configuration for the match timer. */
  const TesseractConfigTimer: RecognizerConfig :=
    RecognizerConfig("eng", RecognizerOptions("0123456789:", SingleTextLine, 3, None))

  /** A preset rectangle: pixel coordinates of its top-left corner and its size. */
  datatype Rect = Rect(x: int, y: int, width: int, height: int)

  /** An entry of the preset table: its key and its rectangle. */
  datatype Preset = Preset(key: string, rect: Rect)

  predicate NonEmpty(r: Rect) {
    r.width > 0 && r.height > 0
  }

  /** The rectangle lies inside a frame of the given size. */
  predicate FitsIn(r: Rect, frameWidth: int, frameHeight: int) {
    0 <= r.x && 0 <= r.y && r.x + r.width <= frameWidth && r.y + r.height <= frameHeight
  }

  /** The preset table, in the insertion order of its object literal. */
  function LolRoiPresets(): (presets: seq<Preset>)
    ensures |presets| == 5
    ensures forall i | 0 <= i < |presets| :: NonEmpty(presets[i].rect)
  {
    [ Preset("timer", Rect(920, 71, 70, 20)),
      Preset("blueKills", Rect(850, 17, 50, 32)),
      Preset("redKills", Rect(1012, 17, 50, 32)),
      Preset("blueGold", Rect(745, 17, 75, 30)),
      Preset("redGold", Rect(1098, 17, 75, 30)) ]
  }

  /** The keys of a preset table, in order (Object.keys). */
  function Keys(presets: seq<Preset>): (keys: seq<string>)
    ensures |keys| == |presets|
    ensures forall i | 0 <= i < |presets| :: keys[i] == presets[i].key
  {
    if presets == [] then [] else [presets[0].key] + Keys(presets[1..])
  }

  /** Indexing the preset table by key; None for an unknown key. */
  function Lookup(presets: seq<Preset>, key: string): (r: Option<Rect>)
    ensures r.Some? <==> key in Keys(presets)
    ensures r.Some? ==> exists i | 0 <= i < |presets| :: presets[i] == Preset(key, r.value)
  {
    if presets == [] then None
    else if presets[0].key == key then Some(presets[0].rect)
    else Lookup(presets[1..], key)
  }

  /** The destructuring order the snapshot assembly relies on. */
  lemma PresetKeyOrder()
    ensures Keys(LolRoiPresets()) == ["timer", "blueKills", "redKills", "blueGold", "redGold"]
  {
  }

  /** Each key finds its own rectangle; a key outside the table finds nothing. */
  lemma PresetLookup(key: string)
    ensures Lookup(LolRoiPresets(), "timer") == Some(Rect(920, 71, 70, 20))
    ensures Lookup(LolRoiPresets(), "blueKills") == Some(Rect(850, 17, 50, 32))
    ensures Lookup(LolRoiPresets(), "redKills") == Some(Rect(1012, 17, 50, 32))
    ensures Lookup(LolRoiPresets(), "blueGold") == Some(Rect(745, 17, 75, 30))
    ensures Lookup(LolRoiPresets(), "redGold") == Some(Rect(1098, 17, 75, 30))
    ensures key !in Keys(LolRoiPresets()) ==> Lookup(LolRoiPresets(), key) == None
  {
    var p := LolRoiPresets();
    assert |p[0].key| == 5 && |p[1].key| == 9 && |p[2].key| == 8 && |p[3].key| == 8 && |p[4].key| == 7;
    assert p[2].key[0] == 'r' && p[3].key[0] == 'b';
    assert Lookup(p[1..], "blueKills") == Some(p[1].rect);
    assert Lookup(p[2..], "redKills") == Some(p[2].rect);
    assert Lookup(p[3..], "blueGold") == Some(p[3].rect);
    assert Lookup(p[4..], "redGold") == Some(p[4].rect);
  }

  /** A key that no earlier entry has finds its own entry's rectangle. */
  lemma {:induction false} LookupFirst(presets: seq<Preset>, k: nat)
    requires k < |presets|
    requires forall j | 0 <= j < k :: presets[j].key != presets[k].key
    ensures Lookup(presets, presets[k].key) == Some(presets[k].rect)
  {
    if k > 0 {
      LookupFirst(presets[1..], k - 1);
    }
  }

  /** The table's keys are pairwise distinct, as the keys of an object literal are. */
  lemma PresetKeysDistinct()
    ensures forall j, k | 0 <= j < k < 5 :: LolRoiPresets()[j].key != LolRoiPresets()[k].key
  {
    var p := LolRoiPresets();
    assert |p[0].key| == 5 && |p[1].key| == 9 && |p[2].key| == 8 && |p[3].key| == 8 && |p[4].key| == 7;
    assert p[2].key[0] == 'r' && p[3].key[0] == 'b';
  }

  /** Looking up the k-th key of the table finds the k-th entry's rectangle. */
  lemma PresetLookupAt()
    ensures forall k | 0 <= k < 5 :: Lookup(LolRoiPresets(), Keys(LolRoiPresets())[k]) == Some(LolRoiPresets()[k].rect)
  {
    PresetKeysDistinct();
    forall k | 0 <= k < 5
      ensures Lookup(LolRoiPresets(), Keys(LolRoiPresets())[k]) == Some(LolRoiPresets()[k].rect)
    {
      LookupFirst(LolRoiPresets(), k);
    }
  }

  /** Blue and red regions of the same statistic share size and row. */
  lemma PairedPresets()
    ensures var p := LolRoiPresets();
      && p[1].rect.width == p[2].rect.width == 50 && p[1].rect.height == p[2].rect.height == 32
      && p[1].rect.y == p[2].rect.y == 17
      && p[3].rect.width == p[4].rect.width == 75 && p[3].rect.height == p[4].rect.height == 30
      && p[3].rect.y == p[4].rect.y == 17
  {
  }

  /** The timer whitelist narrows the general one, and neither admits a thousands suffix. */
  lemma WhitelistsNested()
    ensures forall c | c in TesseractConfigTimer.options.charWhitelist :: c in TesseractConfig.options.charWhitelist
    ensures 'k' !in TesseractConfig.options.charWhitelist && 'K' !in TesseractConfig.options.charWhitelist
    ensures 'k' !in TesseractConfigTimer.options.charWhitelist && 'K' !in TesseractConfigTimer.options.charWhitelist
    ensures '.' in TesseractConfig.options.charWhitelist && '.' !in TesseractConfigTimer.options.charWhitelist
  {
  }
}
