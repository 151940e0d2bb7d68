/** What several components share. */
module Common {

  /** Limits of the wire protocol: shared/protocol.h. */
  const MAX_OPUS_BYTES := 1276
  const AUDIO_MTU := 1400

  datatype Option<+T> = None | Some(value: T)

  /** Element `e` removed by putting the last one in its place. */
  function SwapErase<T>(s: seq<T>, e: nat): (r: seq<T>)
    requires e < |s|
    ensures |r| == |s| - 1
  {
    s[e := s[|s| - 1]][..|s| - 1]
  }
}
