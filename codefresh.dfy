/**
 * The records the agent exchanges with the Codefresh service
 * (agent/pkg/codefresh/types.go) and the text of a failed request.
 */
module Codefresh {
  import opened Wrappers

  /** Go's `int64`: a 64-bit two's complement integer. */
  newtype Int64 = x: int | -0x8000_0000_0000_0000 <= x < 0x8000_0000_0000_0000

  /** One entry of the remote environment listing (`CFEnvironment`). */
  datatype CFEnvironment = CFEnvironment(metadata: CFMetadata, spec: CFSpec)
  datatype CFMetadata = CFMetadata(name: string)
  datatype CFSpec = CFSpec(envType: string, application: string)

  /** `Commit`: both fields are nullable pointers in the source. */
  datatype Commit = Commit(message: Option<string>, avatar: Option<string>)

  datatype SyncPolicy = SyncPolicy(autoSync: bool)

  /** `ReplicaState`: current and desired replica counts. */
  datatype ReplicaState = ReplicaState(current: Int64, desired: Int64)

  /** `EnvironmentActivityRS`: the replica transition of one workload. */
  datatype EnvironmentActivityRS = EnvironmentActivityRS(from: ReplicaState, to: ReplicaState)

  /**
   * `EnvironmentActivity`. A nil image slice of the source is the empty
   * sequence here.
   */
  datatype EnvironmentActivity = EnvironmentActivity(
    name: string,
    targetImages: seq<string>,
    status: string,
    liveImages: seq<string>,
    replicaSet: EnvironmentActivityRS)

  /**
   * `Environment`, the snapshot sent to the service. The activities keep
   * the order in which they were observed; a nil slice is the empty
   * sequence.
   */
  datatype Environment = Environment(
    finishedAt: string,
    healthStatus: string,
    syncStatus: string,
    historyId: Int64,
    syncRevision: string,
    name: string,
    activities: seq<EnvironmentActivity>,
    repoUrl: string,
    commit: Commit,
    syncPolicy: SyncPolicy,
    date: string)

  /**
   * `CodefreshError`, the structured error of a failed request. The
   * untyped `Context` is carried as its textual form.
   */
  datatype CodefreshError = CodefreshError(
    status: Int64,
    code: string,
    name: string,
    message: string,
    context: string,
    url: string)

  const ErrorPrefix: string := "Request failed to "

  /**
   * `CodefreshError.Error()`: the prefix, the URL, ", ", the code, " - ",
   * and the message, each at a fixed position.
   */
  function Error(e: CodefreshError): (r: string)
    ensures |r| == |ErrorPrefix| + |e.url| + 2 + |e.code| + 3 + |e.message|
    ensures r[..|ErrorPrefix|] == ErrorPrefix
    ensures r[|ErrorPrefix|..|ErrorPrefix| + |e.url|] == e.url
    ensures r[|ErrorPrefix| + |e.url|..|ErrorPrefix| + |e.url| + 2] == ", "
    ensures r[|ErrorPrefix| + |e.url| + 2..|r| - |e.message| - 3] == e.code
    ensures r[|r| - |e.message| - 3..|r| - |e.message|] == " - "
    ensures r[|r| - |e.message|..] == e.message
  {
    ErrorPrefix + e.url + ", " + e.code + " - " + e.message
  }

  /** The text depends on the URL, the code and the message only. */
  lemma ErrorIgnoresStatusNameContext(e1: CodefreshError, e2: CodefreshError)
    requires e1.url == e2.url && e1.code == e2.code && e1.message == e2.message
    ensures Error(e1) == Error(e2)
  {
  }

  /**
   * Conversely, once the lengths of the URL and the code are known, the
   * text gives back all three fields it was built from.
   */
  lemma ErrorDeterminesFields(e1: CodefreshError, e2: CodefreshError)
    requires |e1.url| == |e2.url| && |e1.code| == |e2.code|
    requires Error(e1) == Error(e2)
    ensures e1.url == e2.url && e1.code == e2.code && e1.message == e2.message
  {
  }
}
