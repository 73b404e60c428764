/** Loading the detector: both model files must exist before the network is
    read; on success the backend and target are fixed to the default CPU
    execution and the names of the unconnected output layers are stored. */
module ModelStore {
  import opened Wrappers

  const ModelPath: string := "./models/detection.pb"
  const ConfigPath: string := "./models/detection.pbtxt"

  datatype Backend = BackendUnset | BackendDefault
  datatype Target = TargetUnset | TargetCpu

  /** A network built by the inference library from a weights file and a
      topology file; the library decides which output layers it has. */
  datatype Net = Net(weights: string, config: string, backend: Backend, target: Target, unconnectedOutLayers: seq<string>)

  /** The process-wide model state. `None` stands for the default-constructed,
      empty network that exists before a successful load. */
  datatype Store = Store(net: Option<Net>, outNames: seq<string>)

  const Unloaded: Store := Store(None, [])

  predicate Ready(s: Store) {
    s.net.Some?
  }

  datatype LoadOutcome = LoadOutcome(ok: bool, store: Store)

  /** `files` is the set of paths that exist; `outLayers` stands for the
      library's reader and yields the unconnected output layers of the
      network it builds from the given weights and topology paths. */
  function Load(s: Store, files: set<string>, outLayers: (string, string) -> seq<string>): (r: LoadOutcome)
    ensures r.ok <==> ModelPath in files && ConfigPath in files
    ensures !r.ok ==> r.store == s
    ensures r.ok ==> Ready(r.store)
    ensures r.ok ==> r.store.net.value.weights == ModelPath && r.store.net.value.config == ConfigPath
    ensures r.ok ==> r.store.net.value.backend == BackendDefault && r.store.net.value.target == TargetCpu
    ensures r.ok ==> r.store.outNames == r.store.net.value.unconnectedOutLayers == outLayers(ModelPath, ConfigPath)
  {
    if ModelPath !in files || ConfigPath !in files then
      LoadOutcome(false, s)
    else
      var net := Net(ModelPath, ConfigPath, BackendUnset, TargetUnset, outLayers(ModelPath, ConfigPath));
      var net := net.(backend := BackendDefault);
      var net := net.(target := TargetCpu);
      LoadOutcome(true, Store(Some(net), net.unconnectedOutLayers))
  }

  /** Startup: from the unloaded state, the model is ready after a load exactly
      when both files exist, and a missing file leaves no partially loaded
      network behind, so there is no network to run inference with. */
  lemma ReadyIffFilesExist(files: set<string>, outLayers: (string, string) -> seq<string>)
    ensures Ready(Load(Unloaded, files, outLayers).store) <==> ModelPath in files && ConfigPath in files
    ensures ModelPath !in files ==> Load(Unloaded, files, outLayers).store == Unloaded
    ensures ConfigPath !in files ==> Load(Unloaded, files, outLayers).store == Unloaded
  {
  }
}
