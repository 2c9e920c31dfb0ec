/** Values shared by every part of the model: optional values, results and
    the failures the analyser raises. */
module Common {

  datatype Option<+T> = None | Some(value: T)

  /** Every failure of the analyser. The Python code raises an exception in
      each case; here a failure is a value. */
  datatype Error =
    | NoFrameRate              // "No framerate defined on the frame"
    | NoTimeBase               // "No timebase defined on the frame"
    | NoTimeScale              // a division by a track time scale that is None
    | NoDuration               // a multiplication by a duration that is None
    | NoStreams                // "No streams found in ffprobe response"
    | NoFrames                 // "No frames found in ffprobe response"
    | NotANumber(text: string) // int() of a string that is not a decimal integer
    | BadRatio(text: string)   // a ratio field that is not "N" or "N/D"
    | DivisionByZero           // a ratio or time scale with a zero denominator
    | MissingChild(index: nat) // a box has no child at this position
    | MissingField(key: string)// a record has no such key
    | EmptyGop                 // first/last frame of a GOP without frames
    | EmptyFragments           // fragments[-1] of an empty list
    | StreamIndexOutOfRange(streamIndex: int)

  datatype Result<+T> = Ok(value: T) | Err(error: Error)
}
