// The viewer's persisted settings (config.json): the records serde reads and
// writes, the defaults, the padding ConfigJson::read applies after loading,
// and the table ConfigJson::write rebuilds from the loaded models before
// saving. Opening, reading, parsing and writing the file are not modelled:
// what loading produced is a parameter of Read, and Write returns the
// configuration it would serialise.

module Config {
  import opened Bytes
  import opened Floats
  import opened Skn

  /** A Rust String, as its UTF-8 bytes (the form submesh names already have). */
  type Text = seq<Byte>

  /** GLsizei: a signed 32-bit integer. */
  type I32 = x: int | -0x8000_0000 <= x < 0x8000_0000

  /** One model to load: display name and the files of its parts. */
  datatype PathJson = PathJson(name: Text, skin: Text, skeleton: Text, textures: Text, animations: Text)

  /** The per-model display options. */
  datatype OptionsJson = OptionsJson(
    show: bool,
    showWireframe: bool,
    showSkeletonNames: bool,
    showSkeletonBones: bool,
    showSkeletonJoints: bool,
    useAnimation: bool,
    playAnimation: bool,
    loopAnimation: bool,
    nextAnimation: bool,
    animationTime: F32,
    animationSpeed: F32,
    selectedAnimationPath: Text,
    positionOffset: Vec3,
    rotationAngles: Vec3)

  /** Whether a submesh is drawn, and the texture file chosen for it (keyed by the submesh name). */
  datatype MeshJson = MeshJson(show: bool, nameTexture: map<Text, Text>)

  datatype ControlSensitivity = ControlSensitivity(zoom: F32, pan: F32, rotate: F32)

  /** The whole file; paths, options and meshes are parallel lists indexed by model. */
  datatype ConfigJson = ConfigJson(
    msaa: Option<U32>,
    vsync: bool,
    showFloor: bool,
    showSkybox: bool,
    synchronizedTime: bool,
    screenShotResolution: (I32, I32),
    controlSensitivity: ControlSensitivity,
    paths: seq<PathJson>,
    options: seq<OptionsJson>,
    meshes: seq<seq<MeshJson>>,
    skyboxFile: Text)

  /** The parts of a loaded model that ConfigJson::write reads back. */
  datatype MindModel = MindModel(
    skin: SkinData,
    showMeshes: seq<bool>,
    texturesSelecteds: seq<nat>,
    texturesFileNames: seq<Text>,
    animationSelected: nat,
    animationsFileNames: seq<Text>)

  /** What became of opening, reading and parsing the file. */
  datatype Loaded = CannotOpen | CannotRead | Malformed | Parsed(config: ConfigJson)

  // ---------------------------------------------------------------------
  // Defaults

  /** OptionsJson::new: shown, looping, everything else off, no animation selected. */
  function NewOptions(): OptionsJson
  {
    OptionsJson(true, false, false, false, false, false, false, true, false,
      F32_ZERO, F32_ONE, [], Splat(F32_ZERO), Splat(F32_ZERO))
  }

  /** ControlSensitivity::default: rotate 0.5, pan 0.7, zoom 1.0. */
  function DefaultSensitivity(): ControlSensitivity
  {
    ControlSensitivity(F32_ONE, F32_0_7, F32_HALF)
  }

  /** ConfigJson::new: 8x MSAA, vsync, floor and skybox on, 1920x1080 screenshots, no models, no skybox file. */
  function NewConfig(): ConfigJson
  {
    ConfigJson(Some(8), true, true, true, false, (1920, 1080), DefaultSensitivity(), [], [], [], [])
  }

  /** The bytes of "./skybox/Default.dds". */
  const DEFAULT_SKYBOX: Text :=
    [0x2E, 0x2F, 0x73, 0x6B, 0x79, 0x62, 0x6F, 0x78, 0x2F, 0x44, 0x65, 0x66, 0x61, 0x75, 0x6C, 0x74, 0x2E, 0x64, 0x64, 0x73]

  /** ConfigJson::default, the initial value of the global configuration. */
  function DefaultConfig(): ConfigJson
  {
    ConfigJson(Some(8), true, true, true, false, (1920, 1080), DefaultSensitivity(), [], [], [], DEFAULT_SKYBOX)
  }

  /** The two constructors agree on everything but the skybox file. */
  lemma DefaultIsNewWithSkybox()
    ensures DefaultConfig() == NewConfig().(skyboxFile := DEFAULT_SKYBOX)
    ensures DefaultConfig() != NewConfig()
  {
    assert DefaultConfig().skyboxFile != NewConfig().skyboxFile;
  }

  /** vec![x; n]. */
  function Repeat<T>(x: T, n: nat): (r: seq<T>)
    ensures |r| == n && forall i | 0 <= i < n :: r[i] == x
  {
    seq(n, _ => x)
  }

  // ---------------------------------------------------------------------
  // Reading

  /** Every model has an options entry and a meshes entry. */
  predicate Covers(c: ConfigJson)
  {
    |c.options| >= |c.paths| && |c.meshes| >= |c.paths|
  }

  /** Whether s is t followed by nothing but copies of fill, and no longer than n unless t already was. */
  predicate PaddedFrom<T(==)>(s: seq<T>, t: seq<T>, n: nat, fill: T)
  {
    && |s| == (if |t| < n then n else |t|)
    && s[..|t|] == t
    && (forall i | |t| <= i < |s| :: s[i] == fill)
  }

  /**
   * ConfigJson::read after the file has been dealt with: a file that cannot
   * be opened, read or parsed gives ConfigJson::new; a parsed one has its
   * options and meshes lists extended, with default options and empty mesh
   * lists, until they are as long as the paths list.
   */
  method Read(loaded: Loaded) returns (config: ConfigJson)
    ensures Covers(config)
    ensures !loaded.Parsed? ==> config == NewConfig()
    ensures loaded.Parsed? ==>
      && config.(options := loaded.config.options, meshes := loaded.config.meshes) == loaded.config
      && PaddedFrom(config.options, loaded.config.options, |loaded.config.paths|, NewOptions())
      && PaddedFrom(config.meshes, loaded.config.meshes, |loaded.config.paths|, [])
    ensures loaded.Parsed? && Covers(loaded.config) ==> config == loaded.config
  {
    match loaded {
      case CannotOpen => return NewConfig();
      case CannotRead => return NewConfig();
      case Malformed => config := NewConfig();
      case Parsed(c) => config := c;
    }

    if |config.options| < |config.paths| {
      var diff := |config.paths| - |config.options|;
      config := config.(options := config.options + Repeat(NewOptions(), diff));
    }

    if |config.meshes| < |config.paths| {
      var diff := |config.paths| - |config.meshes|;
      config := config.(meshes := config.meshes + Repeat([], diff));
    }
  }

  // ---------------------------------------------------------------------
  // Writing

  /** The indices write follows for a model's meshes are in range. */
  predicate MeshesIndexable(m: MindModel)
  {
    && |m.showMeshes| >= |m.skin.meshes|
    && |m.texturesSelecteds| >= |m.skin.meshes|
    && forall j | 0 <= j < |m.skin.meshes| :: m.texturesSelecteds[j] < |m.texturesFileNames|
  }

  /** The entry write stores for mesh j of a model: its visibility, and its name mapped to its selected texture. */
  function MeshEntry(m: MindModel, j: nat): MeshJson
    requires MeshesIndexable(m) && j < |m.skin.meshes|
  {
    MeshJson(m.showMeshes[j], map[m.skin.meshes[j].submesh.name := m.texturesFileNames[m.texturesSelecteds[j]]])
  }

  /** row holds model m's mesh entries, one per mesh, in order. */
  predicate MeshRow(row: seq<MeshJson>, m: MindModel)
    requires MeshesIndexable(m)
  {
    |row| == |m.skin.meshes| && forall j | 0 <= j < |row| :: row[j] == MeshEntry(m, j)
  }

  /** The name of the animation a model has selected. */
  function SelectedAnimation(m: MindModel): Text
    requires m.animationSelected < |m.animationsFileNames|
  {
    m.animationsFileNames[m.animationSelected]
  }

  /**
   * The configuration ConfigJson::write saves: a copy of config in which
   * each options entry names model i's selected animation, and the meshes
   * list is rebuilt, one list per path, one entry per mesh of model i.
   */
  method Write(config: ConfigJson, models: seq<MindModel>) returns (saved: ConfigJson)
    requires |config.options| <= |models| && |config.paths| <= |models|
    requires forall i | 0 <= i < |config.options| :: models[i].animationSelected < |models[i].animationsFileNames|
    requires forall i | 0 <= i < |config.paths| :: MeshesIndexable(models[i])
    ensures saved.(options := config.options, meshes := config.meshes) == config
    ensures |saved.options| == |config.options|
    ensures forall i | 0 <= i < |saved.options| ::
      saved.options[i] == config.options[i].(selectedAnimationPath := SelectedAnimation(models[i]))
    ensures |saved.meshes| == |config.paths|
    ensures Covers(config) ==> Covers(saved)
    ensures forall i | 0 <= i < |saved.meshes| :: |saved.meshes[i]| == |models[i].skin.meshes|
    ensures forall i, j | 0 <= i < |saved.meshes| && 0 <= j < |saved.meshes[i]| ::
      saved.meshes[i][j] == MeshEntry(models[i], j)
  {
    var options := config.options;
    var i := 0;
    while i < |options|
      invariant 0 <= i <= |options| == |config.options|
      invariant forall k | 0 <= k < i ::
        options[k] == config.options[k].(selectedAnimationPath := SelectedAnimation(models[k]))
      invariant forall k | i <= k < |options| :: options[k] == config.options[k]
    {
      var m := models[i];
      options := options[i := options[i].(selectedAnimationPath := m.animationsFileNames[m.animationSelected])];
      i := i + 1;
    }

    var meshes: seq<seq<MeshJson>> := [];
    i := 0;
    while i < |config.paths|
      invariant 0 <= i <= |config.paths| && |meshes| == i
      invariant forall k | 0 <= k < i :: MeshRow(meshes[k], models[k])
    {
      var m := models[i];
      var row: seq<MeshJson> := [];
      var j := 0;
      while j < |m.skin.meshes|
        invariant 0 <= j <= |m.skin.meshes| && |row| == j
        invariant forall l | 0 <= l < j :: row[l] == MeshEntry(m, l)
      {
        var nameTexture := map[m.skin.meshes[j].submesh.name := m.texturesFileNames[m.texturesSelecteds[j]]];
        row := row + [MeshJson(m.showMeshes[j], nameTexture)];
        j := j + 1;
      }
      assert MeshRow(row, m);
      meshes := meshes + [row];
      i := i + 1;
    }

    saved := config.(options := options, meshes := meshes);
  }

  /** Each saved mesh entry holds exactly one texture, under the submesh's own name. */
  lemma MeshEntryNamesOneTexture(m: MindModel, j: nat)
    requires MeshesIndexable(m) && j < |m.skin.meshes|
    ensures var e := MeshEntry(m, j);
      && e.nameTexture.Keys == {m.skin.meshes[j].submesh.name}
      && e.nameTexture[m.skin.meshes[j].submesh.name] == m.texturesFileNames[m.texturesSelecteds[j]]
      && e.show == m.showMeshes[j]
  {
  }
}
