/**
 * The blockbuster parser of the noop program: the outer instruction's data
 * is one account-compression event.
 */
module NoopParser {
  import opened Wrappers
  import opened Bytes
  import opened Instructions
  import opened BlockbusterErrors
  import ProgramIds

  predicate KeyMatch(key: Pubkey)
  {
    key == ProgramIds.NOOP_ID
  }

  const HANDLES_ACCOUNT_UPDATES := false
  const HANDLES_INSTRUCTIONS := true

  /**
   * `handle_instruction`. No instruction is a deserialization error, empty
   * data an instruction-parsing error; data that does not decode is logged
   * and yields an empty result.
   */
  function HandleInstruction(bundle: InstructionBundle, decodeEvent: Bytes -> Option<AccountCompressionEvent>)
    : (r: Result<NoopInstruction, BlockbusterError>)
    ensures bundle.instruction.None? <==> r == Err(DeserializationError)
    ensures bundle.instruction.Some? && |bundle.instruction.value.data| == 0 <==> r == Err(InstructionParsingError)
    ensures r.Ok? ==> !(r.value.treeUpdate.Some? && r.value.applicationData.Some?)
    ensures r.Ok? ==>
      var event := decodeEvent(bundle.instruction.value.data);
      && (r.value.treeUpdate.Some? <==> event.Some? && event.value.ChangeLog?)
      && (r.value.treeUpdate.Some? ==> r.value.treeUpdate.value == event.value.changeLog)
      && (r.value.applicationData.Some? <==> event.Some? && event.value.ApplicationData?)
      && (r.value.applicationData.Some? ==> r.value.applicationData.value == event.value.appData)
    ensures bundle.instruction.Some? && |bundle.instruction.value.data| > 0 && decodeEvent(bundle.instruction.value.data).None? ==>
      r == Ok(NoopInstruction(None, None))
  {
    match bundle.instruction
    case None => Err(DeserializationError)
    case Some(cix) =>
      if |cix.data| == 0 then Err(InstructionParsingError)
      else
        match decodeEvent(cix.data)
        case Some(ChangeLog(c)) => Ok(NoopInstruction(Some(c), None))
        case Some(ApplicationData(a)) => Ok(NoopInstruction(None, Some(a)))
        case None => Ok(NoopInstruction(None, None))
  }
}
