/** How a decode ends, in the output stage's own terms (pipeline.rs). */
module Endings {
  /** All well; a member that fails its check; an error handed on by another stage; the channel to the
      output closed; no final block in the last chunk; or a consumer that has stopped receiving. */
  datatype Ending = Success | BadMember | StageFailed | ChannelGone | NoFinalBlock | SinkClosed
}
