/**
 * Plugin configuration migrations from older config versions: the CRI images plugin
 * (plugins/cri/images/plugin.go), the CRI gRPC plugin (plugins/cri/cri.go) and the cgroups
 * task monitor (core/metrics/cgroups/cgroups.go). Plugin configs are nested maps from
 * keys to untyped values; a failed Go type assertion panics, modelled as Err(Panic).
 */
module ConfigMigration {
  import opened Errdefs

  /** A decoded TOML value; `Opaque` stands for anything the migrations only move around. */
  datatype Value = Str(s: string) | Int(i: int) | Bool(b: bool) | Map(m: map<string, Value>) | Opaque(tag: string)

  type Configs = map<string, Value>

  /** The current config version and plugin type prefixes of containerd. */
  const ConfigVersion: int := 3
  const GRPCPlugin := "io.containerd.grpc.v1"
  const CRIServicePlugin := "io.containerd.cri.v1"
  const TaskMonitorPlugin := "io.containerd.monitor.task.v1"

  const CriKey := GRPCPlugin + ".cri"
  const ImagesKey := CRIServicePlugin + ".images"
  const OldCgroupsKey := "io.containerd.monitor.v1.cgroups"
  const CgroupsKey := TaskMonitorPlugin + ".cgroups"

  const ImageKeys: seq<string> := ["registry", "image_decryption", "max_concurrent_downloads",
                                   "image_pull_progress_timeout", "image_pull_with_sync_fs", "stats_collect_period"]
  const ContainerdKeys: seq<string> := ["snapshotter", "disable_snapshot_annotations", "discard_unpacked_layers"]
  const StreamingKeys: seq<string> := ["disable_tcp_service", "stream_server_address", "stream_server_port",
                                       "stream_idle_timeout", "enable_tls_streaming", "x509_key_pair_streaming"]

  /** `dst` with every listed key that `src` holds copied over. */
  function Copied(dst: Configs, src: Configs, keys: seq<string>): (r: Configs)
    ensures forall k :: k in r <==> k in dst || (k in keys && k in src)
    ensures forall k :: k in r ==> r[k] == if k in keys && k in src then src[k] else dst[k]
  {
    map k | k in dst.Keys + (set x | x in keys && x in src) :: if k in keys && k in src then src[k] else dst[k]
  }

  /** The loop that copies the listed keys present in `src` into `dst`. */
  method CopyPresent(dst: Configs, src: Configs, keys: seq<string>) returns (r: Configs)
    ensures r == Copied(dst, src, keys)
  {
    r := dst;
    for i := 0 to |keys|
      invariant r == Copied(dst, src, keys[..i])
    {
      var key := keys[i];
      assert keys[..i + 1] == keys[..i] + [key];
      CopiedStep(dst, src, keys[..i], key);
      if key in src {
        r := r[key := src[key]];
      }
    }
    assert keys[..|keys|] == keys;
  }

  /** Copying one more key: it overwrites dst's entry when src has it, and changes nothing otherwise. */
  lemma CopiedStep(dst: Configs, src: Configs, keys: seq<string>, key: string)
    ensures Copied(dst, src, keys + [key])
      == if key in src then Copied(dst, src, keys)[key := src[key]] else Copied(dst, src, keys)
  {
    var before, after := Copied(dst, src, keys), Copied(dst, src, keys + [key]);
    var expected := if key in src then before[key := src[key]] else before;
    forall k
      ensures k in after <==> k in expected
      ensures k in after ==> after[k] == expected[k]
    {
      assert k in keys + [key] <==> k in keys || k == key;
    }
    assert after.Keys == expected.Keys;
  }

  /** `v.(map[string]interface{})` for a value that may be absent: absent is the empty map, a non-map panics. */
  function MapOrEmpty(m: Configs, key: string): (r: Result<Configs>)
    ensures key !in m ==> r == Ok(map[])
    ensures key in m && m[key].Map? ==> r == Ok(m[key].m)
    ensures key in m && !m[key].Map? ==> r == Err(Panic)
  {
    if key !in m then Ok(map[]) else if m[key].Map? then Ok(m[key].m) else Err(Panic)
  }

  /** The runtime_platform entry for a runtime's config, if its `snapshot` is set and not "". */
  function PlatformEntry(runtimeConf: Configs, defaultPlatform: Value): Option<Value>
  {
    if "snapshot" in runtimeConf && runtimeConf["snapshot"] != Str("") then
      Some(Map(map["platform" := defaultPlatform, "snapshotter" := runtimeConf["snapshot"]]))
    else None
  }

  /** The runtimes among `ks` whose configs are all maps. */
  predicate MapsOn(runtimes: Configs, ks: set<string>)
  {
    ks <= runtimes.Keys && forall x :: x in ks ==> runtimes[x].Map?
  }

  /** The runtime platforms after visiting the runtimes in `ks`. */
  function Platforms(platforms: Configs, runtimes: Configs, ks: set<string>, defaultPlatform: Value): (r: Configs)
    requires MapsOn(runtimes, ks)
    ensures forall k :: k in r <==> k in platforms || (k in ks && PlatformEntry(runtimes[k].m, defaultPlatform).Some?)
    ensures forall k :: k in r ==> r[k] == if k in ks && PlatformEntry(runtimes[k].m, defaultPlatform).Some?
                                           then PlatformEntry(runtimes[k].m, defaultPlatform).value else platforms[k]
  {
    map k | k in platforms.Keys + (set x | x in ks && PlatformEntry(runtimes[x].m, defaultPlatform).Some?) ::
      if k in ks && PlatformEntry(runtimes[k].m, defaultPlatform).Some? then PlatformEntry(runtimes[k].m, defaultPlatform).value
      else platforms[k]
  }

  lemma PlatformsStep(platforms: Configs, runtimes: Configs, ks: set<string>, x: string, defaultPlatform: Value)
    requires MapsOn(runtimes, ks) && x in runtimes && x !in ks && runtimes[x].Map?
    ensures var before := Platforms(platforms, runtimes, ks, defaultPlatform);
      var entry := PlatformEntry(runtimes[x].m, defaultPlatform);
      Platforms(platforms, runtimes, ks + {x}, defaultPlatform) == if entry.Some? then before[x := entry.value] else before
  {
    var before := Platforms(platforms, runtimes, ks, defaultPlatform);
    var after := Platforms(platforms, runtimes, ks + {x}, defaultPlatform);
    var entry := PlatformEntry(runtimes[x].m, defaultPlatform);
    var expected := if entry.Some? then before[x := entry.value] else before;
    forall k
      ensures k in after <==> k in expected
      ensures k in after ==> after[k] == expected[k]
    {
      if k != x {
        assert k in ks + {x} <==> k in ks;
      }
    }
    assert after.Keys == expected.Keys;
  }

  /**
   * The loop over the runtimes (in any order): each runtime with a non-empty `snapshot`
   * gets a platform entry naming that snapshotter; a runtime config that is not a map panics.
   */
  method AddRuntimePlatforms(platforms: Configs, runtimes: Configs, defaultPlatform: Value) returns (r: Result<Configs>)
    ensures !MapsOn(runtimes, runtimes.Keys) ==> r == Err(Panic)
    ensures MapsOn(runtimes, runtimes.Keys) ==> r == Ok(Platforms(platforms, runtimes, runtimes.Keys, defaultPlatform))
  {
    var acc := platforms;
    var todo := runtimes.Keys;
    ghost var done: set<string> := {};
    while todo != {}
      invariant todo + done == runtimes.Keys && todo !! done
      invariant MapsOn(runtimes, done)
      invariant acc == Platforms(platforms, runtimes, done, defaultPlatform)
      decreases todo
    {
      var runtime :| runtime in todo;
      if !runtimes[runtime].Map? {
        return Err(Panic);
      }
      var entry := PlatformEntry(runtimes[runtime].m, defaultPlatform);
      PlatformsStep(platforms, runtimes, done, runtime, defaultPlatform);
      if entry.Some? {
        acc := acc[runtime := entry.value];
      }
      todo := todo - {runtime};
      done := done + {runtime};
    }
    return Ok(acc);
  }

  /** dst with `key` set to the map when it is not empty. */
  function PutIfNotEmpty(dst: Configs, key: string, m: Configs): Configs
  {
    if |m| > 0 then dst[key := Map(m)] else dst
  }

  /** The pinned images after the sandbox image is pinned under "sandbox". */
  function Pinned(pinned: Configs, src: Configs): Configs
  {
    if "sandbox_image" in src then pinned["sandbox" := src["sandbox_image"]] else pinned
  }

  /** The first half of migrateConfig: pin the sandbox image and copy the image keys. */
  function PinnedAndCopied(dst: Configs, src: Configs): Result<Configs>
  {
    match MapOrEmpty(dst, "pinned_images")
    case Err(e) => Err(e)
    case Ok(pinned) => Ok(Copied(PutIfNotEmpty(dst, "pinned_images", Pinned(pinned, src)), src, ImageKeys))
  }

  /** The second half: the runtime platforms and the containerd keys, when the old config has runtimes. */
  function RuntimesMigrated(out: Configs, src: Configs, defaultPlatform: Value): Result<Configs>
  {
    if "containerd" !in src then Ok(out)
    else if !src["containerd"].Map? then Err(Panic)
    else
      var containerd := src["containerd"].m;
      if "runtimes" !in containerd then Ok(out)
      else match MapOrEmpty(out, "runtime_platform")
        case Err(e) => Err(e)
        case Ok(platforms) =>
          var runtimes := containerd["runtimes"];
          if !runtimes.Map? || !MapsOn(runtimes.m, runtimes.m.Keys) then Err(Panic)
          else
            var withPlatforms := PutIfNotEmpty(out, "runtime_platform", Platforms(platforms, runtimes.m, runtimes.m.Keys, defaultPlatform));
            Ok(Copied(withPlatforms, containerd, ContainerdKeys))
  }

  /** migrateConfig, as a function of the existing images config and the old CRI config. */
  function MigratedImages(dst: Configs, src: Configs, defaultPlatform: Value): (r: Result<Configs>)
    ensures r.Err? ==> r.error == Panic
    ensures r.Ok? ==> forall k :: k !in ImageKeys && k !in ContainerdKeys && k != "pinned_images" && k != "runtime_platform" ==>
      (k in r.value <==> k in dst) && (k in r.value ==> r.value[k] == dst[k])
  {
    match PinnedAndCopied(dst, src)
    case Err(e) => Err(e)
    case Ok(out) =>
      RuntimesKeepOthers(out, src, defaultPlatform);
      RuntimesMigrated(out, src, defaultPlatform)
  }

  method MigrateRuntimes(out: Configs, src: Configs, defaultPlatform: Value) returns (r: Result<Configs>)
    ensures r == RuntimesMigrated(out, src, defaultPlatform)
  {
    if "containerd" !in src {
      return Ok(out);
    }
    if !src["containerd"].Map? {
      return Err(Panic);
    }
    var containerd := src["containerd"].m;
    if "runtimes" !in containerd {
      return Ok(out);
    }
    var platforms := MapOrEmpty(out, "runtime_platform");
    if platforms.Err? {
      return Err(Panic);
    }
    if !containerd["runtimes"].Map? {
      return Err(Panic);
    }
    var added := AddRuntimePlatforms(platforms.value, containerd["runtimes"].m, defaultPlatform);
    if added.Err? {
      return Err(Panic);
    }
    var next := out;
    if |added.value| > 0 {
      next := next["runtime_platform" := Map(added.value)];
    }
    next := CopyPresent(next, containerd, ContainerdKeys);
    return Ok(next);
  }

  /**
   * migrateConfig: pin the sandbox image, copy the image keys, then, when the old config
   * has containerd runtimes, add their runtime platforms and copy the containerd keys.
   */
  method MigrateConfig(dst: Configs, src: Configs, defaultPlatform: Value) returns (r: Result<Configs>)
    ensures r == MigratedImages(dst, src, defaultPlatform)
  {
    var pinned := MapOrEmpty(dst, "pinned_images");
    if pinned.Err? {
      return Err(Panic);
    }
    var images := pinned.value;
    if "sandbox_image" in src {
      images := images["sandbox" := src["sandbox_image"]];
    }
    var out := dst;
    if |images| > 0 {
      out := out["pinned_images" := Map(images)];
    }
    out := CopyPresent(out, src, ImageKeys);
    r := MigrateRuntimes(out, src, defaultPlatform);
  }

  /** The runtime half touches only runtime_platform and the containerd keys. */
  lemma RuntimesKeepOthers(out: Configs, src: Configs, defaultPlatform: Value)
    ensures var r := RuntimesMigrated(out, src, defaultPlatform);
      r.Err? ==> r.error == Panic
    ensures var r := RuntimesMigrated(out, src, defaultPlatform);
      r.Ok? ==> forall k :: k !in ContainerdKeys && k != "runtime_platform" ==>
        (k in r.value <==> k in out) && (k in r.value ==> r.value[k] == out[k])
  {
  }

  /** The images plugin's migration as a function of the old configs. */
  function MigratedImagesConfigs(configVersion: int, pluginConfigs: Configs, defaultPlatform: Value): Result<Configs>
  {
    if configVersion >= ConfigVersion || CriKey !in pluginConfigs then Ok(pluginConfigs)
    else if !pluginConfigs[CriKey].Map? then Err(Panic)
    else match MapOrEmpty(pluginConfigs, ImagesKey)
      case Err(e) => Err(e)
      case Ok(dst) =>
        match MigratedImages(dst, pluginConfigs[CriKey].m, defaultPlatform)
        case Err(e) => Err(e)
        case Ok(migrated) => Ok(pluginConfigs[ImagesKey := Map(migrated)])
  }

  /**
   * The images plugin's configMigration: the old CRI config is migrated into the images
   * plugin's config, merged into what is already there.
   */
  method ImagesConfigMigration(configVersion: int, pluginConfigs: Configs, defaultPlatform: Value) returns (r: Result<Configs>)
    ensures r == MigratedImagesConfigs(configVersion, pluginConfigs, defaultPlatform)
    ensures configVersion >= ConfigVersion || CriKey !in pluginConfigs ==> r == Ok(pluginConfigs)
    ensures r.Ok? ==> forall k :: k != ImagesKey ==> (k in r.value <==> k in pluginConfigs)
    ensures r.Ok? ==> forall k :: k != ImagesKey && k in pluginConfigs ==> r.value[k] == pluginConfigs[k]
  {
    if configVersion >= ConfigVersion {
      return Ok(pluginConfigs);
    }
    if CriKey !in pluginConfigs {
      return Ok(pluginConfigs);
    }
    if !pluginConfigs[CriKey].Map? {
      return Err(Panic);
    }
    var src := pluginConfigs[CriKey].m;
    var dst := MapOrEmpty(pluginConfigs, ImagesKey);
    if dst.Err? {
      return Err(Panic);
    }
    var migrated := MigrateConfig(dst.value, src, defaultPlatform);
    if migrated.Err? {
      return Err(Panic);
    }
    return Ok(pluginConfigs[ImagesKey := Map(migrated.value)]);
  }

  /** The sandbox image becomes pinned_images["sandbox"], and the other pinned images are kept. */
  lemma SandboxImagePinned(dst: Configs, src: Configs, defaultPlatform: Value)
    requires MigratedImages(dst, src, defaultPlatform).Ok? && "sandbox_image" in src
    ensures var r := MigratedImages(dst, src, defaultPlatform).value;
      "pinned_images" in r && r["pinned_images"].Map? &&
      r["pinned_images"].m == (if "pinned_images" in dst then dst["pinned_images"].m else map[])["sandbox" := src["sandbox_image"]]
  {
    var out := PinnedAndCopied(dst, src).value;
    PinnedFirst(dst, src);
    PinnedNotRuntimeKey();
    RuntimesKeepOthers(out, src, defaultPlatform);
  }

  /** The first stage already holds the pinned images with the sandbox entry. */
  lemma PinnedFirst(dst: Configs, src: Configs)
    requires PinnedAndCopied(dst, src).Ok? && "sandbox_image" in src
    ensures var out := PinnedAndCopied(dst, src).value;
      "pinned_images" in out && out["pinned_images"].Map? &&
      out["pinned_images"].m == (if "pinned_images" in dst then dst["pinned_images"].m else map[])["sandbox" := src["sandbox_image"]]
  {
    var pinned := MapOrEmpty(dst, "pinned_images").value;
    var p := Pinned(pinned, src);
    assert "sandbox" in p.Keys;
    assert |p.Keys| > 0;
    var put := PutIfNotEmpty(dst, "pinned_images", p);
    assert put["pinned_images"] == Map(p);
    PinnedNotImageKey();
  }

  lemma PinnedNotImageKey()
    ensures "pinned_images" !in ImageKeys
  {
  }

  lemma PinnedNotRuntimeKey()
    ensures "pinned_images" !in ContainerdKeys && "pinned_images" != "runtime_platform"
  {
  }

  /** Each of the six image keys is copied verbatim when the old config has it, and only then. */
  lemma ImageKeysCopied(dst: Configs, src: Configs, defaultPlatform: Value, key: string)
    requires MigratedImages(dst, src, defaultPlatform).Ok? && key in ImageKeys
    ensures var r := MigratedImages(dst, src, defaultPlatform).value;
      (key in src ==> key in r && r[key] == src[key]) &&
      (key !in src ==> (key in r <==> key in dst) && (key in dst ==> r[key] == dst[key]))
  {
    var out := PinnedAndCopied(dst, src).value;
    assert key !in ContainerdKeys;
    assert key != "pinned_images" && key != "runtime_platform";
    RuntimesKeepOthers(out, src, defaultPlatform);
  }

  /**
   * With containerd runtimes, each of the three containerd keys is copied verbatim from the
   * old containerd config when it has it, and the earlier value is kept otherwise.
   */
  lemma ContainerdKeysCopied(dst: Configs, src: Configs, defaultPlatform: Value, key: string)
    requires MigratedImages(dst, src, defaultPlatform).Ok? && key in ContainerdKeys
    requires "containerd" in src && src["containerd"].Map? && "runtimes" in src["containerd"].m
    ensures var r := MigratedImages(dst, src, defaultPlatform).value;
      var containerd := src["containerd"].m;
      (key in containerd ==> key in r && r[key] == containerd[key]) &&
      (key !in containerd ==> (key in r <==> key in dst) && (key in dst ==> r[key] == dst[key]))
  {
    var out := PinnedAndCopied(dst, src).value;
    var containerd := src["containerd"].m;
    var runtimes := containerd["runtimes"].m;
    var platforms := MapOrEmpty(out, "runtime_platform").value;
    var withPlatforms := PutIfNotEmpty(out, "runtime_platform", Platforms(platforms, runtimes, runtimes.Keys, defaultPlatform));
    assert MigratedImages(dst, src, defaultPlatform) == Ok(Copied(withPlatforms, containerd, ContainerdKeys));
    assert key != "runtime_platform" && key != "pinned_images" by { assert key in ContainerdKeys; }
    assert (key in withPlatforms <==> key in out) && (key in out ==> withPlatforms[key] == out[key]);
    assert key !in ImageKeys by { assert key in ContainerdKeys; }
    var pinned := MapOrEmpty(dst, "pinned_images").value;
    assert out == Copied(PutIfNotEmpty(dst, "pinned_images", Pinned(pinned, src)), src, ImageKeys);
  }

  /**
   * With containerd runtimes, a runtime whose `snapshot` is set and not "" ends up in the
   * migrated runtime_platform map, with the default platform and that snapshotter.
   */
  lemma RuntimePlatformRecorded(dst: Configs, src: Configs, defaultPlatform: Value, runtime: string)
    requires MigratedImages(dst, src, defaultPlatform).Ok?
    requires "containerd" in src && src["containerd"].Map? && "runtimes" in src["containerd"].m
    requires src["containerd"].m["runtimes"].Map? && runtime in src["containerd"].m["runtimes"].m
    requires src["containerd"].m["runtimes"].m[runtime].Map?
    requires var conf := src["containerd"].m["runtimes"].m[runtime].m;
      "snapshot" in conf && conf["snapshot"] != Str("")
    ensures var r := MigratedImages(dst, src, defaultPlatform).value;
      var conf := src["containerd"].m["runtimes"].m[runtime].m;
      "runtime_platform" in r && r["runtime_platform"].Map? && runtime in r["runtime_platform"].m &&
      r["runtime_platform"].m[runtime] == Map(map["platform" := defaultPlatform, "snapshotter" := conf["snapshot"]])
  {
    var out := PinnedAndCopied(dst, src).value;
    assert MigratedImages(dst, src, defaultPlatform) == RuntimesMigrated(out, src, defaultPlatform);
    RuntimesRecordPlatform(out, src["containerd"].m, defaultPlatform, runtime);
  }

  /** The runtime half on its own: the platform entry of such a runtime lands in runtime_platform. */
  lemma RuntimesRecordPlatform(out: Configs, containerd: Configs, defaultPlatform: Value, runtime: string)
    requires "runtimes" in containerd && containerd["runtimes"].Map?
    requires MapsOn(containerd["runtimes"].m, containerd["runtimes"].m.Keys)
    requires MapOrEmpty(out, "runtime_platform").Ok? && runtime in containerd["runtimes"].m
    requires var conf := containerd["runtimes"].m[runtime].m;
      "snapshot" in conf && conf["snapshot"] != Str("")
    ensures var runtimes := containerd["runtimes"].m;
      var p := Platforms(MapOrEmpty(out, "runtime_platform").value, runtimes, runtimes.Keys, defaultPlatform);
      var r := Copied(PutIfNotEmpty(out, "runtime_platform", p), containerd, ContainerdKeys);
      var conf := runtimes[runtime].m;
      "runtime_platform" in r && r["runtime_platform"].Map? && runtime in r["runtime_platform"].m &&
      r["runtime_platform"].m[runtime] == Map(map["platform" := defaultPlatform, "snapshotter" := conf["snapshot"]])
  {
    var runtimes := containerd["runtimes"].m;
    var platforms := MapOrEmpty(out, "runtime_platform").value;
    var p := Platforms(platforms, runtimes, runtimes.Keys, defaultPlatform);
    RuntimeSnapshotterRecorded(platforms, runtimes, defaultPlatform, runtime);
    assert |p| > 0 by { assert runtime in p; }
    var w := PutIfNotEmpty(out, "runtime_platform", p);
    assert "runtime_platform" in w && w["runtime_platform"] == Map(p);
    CopiedKeeps(w, containerd, ContainerdKeys, "runtime_platform");
  }

  /** A key outside the copied ones keeps dst's value. */
  lemma CopiedKeeps(dst: Configs, src: Configs, keys: seq<string>, k: string)
    requires k in dst && k !in keys
    ensures k in Copied(dst, src, keys) && Copied(dst, src, keys)[k] == dst[k]
  {
  }

  /** Without containerd runtimes the migration stops after the key copy. */
  lemma NoRuntimesStopsEarly(dst: Configs, src: Configs, defaultPlatform: Value)
    requires "containerd" !in src || (src["containerd"].Map? && "runtimes" !in src["containerd"].m)
    ensures MigratedImages(dst, src, defaultPlatform) == PinnedAndCopied(dst, src)
  {
  }

  /** A runtime with a non-empty `snapshot` gets a runtime_platform entry naming that snapshotter. */
  lemma RuntimeSnapshotterRecorded(platforms: Configs, runtimes: Configs, defaultPlatform: Value, runtime: string)
    requires MapsOn(runtimes, runtimes.Keys) && runtime in runtimes
    requires "snapshot" in runtimes[runtime].m && runtimes[runtime].m["snapshot"] != Str("")
    ensures var p := Platforms(platforms, runtimes, runtimes.Keys, defaultPlatform);
      runtime in p && p[runtime] == Map(map["platform" := defaultPlatform, "snapshotter" := runtimes[runtime].m["snapshot"]])
  {
  }

  /** The CRI plugin's migration as a function of the old configs. */
  function MigratedCriConfigs(configVersion: int, pluginConfigs: Configs): (r: Configs)
  {
    if configVersion >= ConfigVersion || CriKey !in pluginConfigs || !pluginConfigs[CriKey].Map? then pluginConfigs
    else pluginConfigs[CriKey := Map(Copied(map[], pluginConfigs[CriKey].m, StreamingKeys))]
  }

  /**
   * The CRI plugin's configMigration: its entry is replaced by a fresh map holding only the
   * six streaming keys it had; a missing entry or one that is not a map is left alone.
   */
  method CriConfigMigration(configVersion: int, pluginConfigs: Configs) returns (r: Configs)
    ensures r == MigratedCriConfigs(configVersion, pluginConfigs)
  {
    if configVersion >= ConfigVersion {
      return pluginConfigs;
    }
    if CriKey !in pluginConfigs || !pluginConfigs[CriKey].Map? {
      return pluginConfigs;
    }
    var src := pluginConfigs[CriKey].m;
    var dst := CopyPresent(map[], src, StreamingKeys);
    return pluginConfigs[CriKey := Map(dst)];
  }

  /** The migrated CRI entry holds exactly the streaming keys that were present, unchanged; other entries are untouched. */
  lemma CriMigrationKeepsStreamingKeys(configVersion: int, pluginConfigs: Configs)
    requires configVersion < ConfigVersion && CriKey in pluginConfigs && pluginConfigs[CriKey].Map?
    ensures var r := MigratedCriConfigs(configVersion, pluginConfigs);
      var old_ := pluginConfigs[CriKey].m;
      r.Keys == pluginConfigs.Keys && r[CriKey].Map? &&
      (forall k :: k in r[CriKey].m <==> k in StreamingKeys && k in old_) &&
      (forall k :: k in r[CriKey].m ==> r[CriKey].m[k] == old_[k]) &&
      (forall k :: k in pluginConfigs && k != CriKey ==> r[k] == pluginConfigs[k])
  {
  }

  /** The cgroups monitor's migration as a function of the old configs. */
  function MigratedCgroupsConfigs(configVersion: int, pluginConfigs: Configs): (r: Configs)
    ensures configVersion >= ConfigVersion || OldCgroupsKey !in pluginConfigs ==> r == pluginConfigs
    ensures configVersion < ConfigVersion && OldCgroupsKey in pluginConfigs ==>
      OldCgroupsKey !in r && CgroupsKey in r && r[CgroupsKey] == pluginConfigs[OldCgroupsKey]
    ensures forall k :: k != OldCgroupsKey && k != CgroupsKey ==>
      (k in r <==> k in pluginConfigs) && (k in r ==> r[k] == pluginConfigs[k])
  {
    if configVersion >= ConfigVersion || OldCgroupsKey !in pluginConfigs then pluginConfigs
    else pluginConfigs[CgroupsKey := pluginConfigs[OldCgroupsKey]] - {OldCgroupsKey}
  }

  /** The cgroups monitor's ConfigMigration: the config under the old plugin name moves to the task monitor key. */
  method CgroupsConfigMigration(configVersion: int, pluginConfigs: Configs) returns (r: Configs)
    ensures r == MigratedCgroupsConfigs(configVersion, pluginConfigs)
  {
    if configVersion >= ConfigVersion {
      return pluginConfigs;
    }
    r := pluginConfigs;
    if OldCgroupsKey in r {
      var c := r[OldCgroupsKey];
      r := r[CgroupsKey := c];
      r := r - {OldCgroupsKey};
    }
  }
}
