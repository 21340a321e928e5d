/**
 The flag vocabulary of the test error monitor: the log-message-type bits
 it filters on, the debug-utils severity and type bits the messenger
 reports, and the mapping from the latter to the former.
 */
module MessageFlags {

  /** A 32-bit Vulkan flags word. */
  type Flags = bv32

  /** The layer's log-message-type bits (the same values as
      VkDebugReportFlagBitsEXT). */
  const InformationBit: Flags := 0x1
  const WarningBit: Flags := 0x2
  const PerformanceWarningBit: Flags := 0x4
  const ErrorBit: Flags := 0x8
  const VerboseBit: Flags := 0x10

  /** VkDebugUtilsMessageSeverityFlagBitsEXT. */
  const SeverityVerbose: Flags := 0x1
  const SeverityInfo: Flags := 0x10
  const SeverityWarning: Flags := 0x100
  const SeverityError: Flags := 0x1000

  /** VK_DEBUG_UTILS_MESSAGE_TYPE_PERFORMANCE_BIT_EXT. */
  const TypePerformance: Flags := 0x4

  predicate Has(flags: Flags, bit: Flags) {
    flags & bit != 0
  }

  /** DebugAnnotFlagsToMsgTypeFlags: the most severe severity bit present
      selects exactly one log bit; a warning of the performance type becomes
      a performance warning. No known severity bit gives no log bit. */
  function ToMessageTypeFlags(severity: Flags, msgType: Flags): (r: Flags)
    ensures r == 0 || r == ErrorBit || r == WarningBit || r == PerformanceWarningBit || r == InformationBit || r == VerboseBit
    ensures r == ErrorBit <==> Has(severity, SeverityError)
    ensures r == WarningBit || r == PerformanceWarningBit <==> !Has(severity, SeverityError) && Has(severity, SeverityWarning)
    ensures r == InformationBit <==>
              !Has(severity, SeverityError) && !Has(severity, SeverityWarning) && Has(severity, SeverityInfo)
    ensures r == 0 <==>
              !Has(severity, SeverityError) && !Has(severity, SeverityWarning) && !Has(severity, SeverityInfo) &&
              !Has(severity, SeverityVerbose)
  {
    if Has(severity, SeverityError) then ErrorBit
    else if Has(severity, SeverityWarning) then
      (if Has(msgType, TypePerformance) then PerformanceWarningBit else WarningBit)
    else if Has(severity, SeverityInfo) then InformationBit
    else if Has(severity, SeverityVerbose) then VerboseBit
    else 0
  }

  /** A warning-severity message is a performance warning exactly when its
      type carries the performance bit, and a plain warning otherwise. */
  lemma PerformanceWarningIff(severity: Flags, msgType: Flags)
    requires !Has(severity, SeverityError) && Has(severity, SeverityWarning)
    ensures ToMessageTypeFlags(severity, msgType) == PerformanceWarningBit <==> Has(msgType, TypePerformance)
    ensures ToMessageTypeFlags(severity, msgType) == WarningBit <==> !Has(msgType, TypePerformance)
  {
  }

  /** The callback's filter: a message reaches the monitor only when its log
      bit is in the monitor's mask. An error-severity message passes exactly
      when the mask holds the error bit, whatever else it is. */
  predicate PassesFilter(mask: Flags, severity: Flags, msgType: Flags) {
    ToMessageTypeFlags(severity, msgType) & mask != 0
  }

  lemma ErrorPassesIff(mask: Flags, severity: Flags, msgType: Flags)
    requires Has(severity, SeverityError)
    ensures PassesFilter(mask, severity, msgType) <==> Has(mask, ErrorBit)
  {
  }
}
