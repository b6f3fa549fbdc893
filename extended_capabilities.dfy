/** The two conversions into the list of extended capabilities that this
    model covers. Each only tags its argument with the capability it is. */
module ExtendedCapabilities {
  import DebugCapability
  import Accessor

  /** The variants of `ExtendedCapability` that the Debug Capability and
      the Extended Message Interrupt capability convert into; the other
      variants are not part of this model. */
  datatype ExtendedCapability =
    | Debug(debug: DebugCapability.Debug)
    | XhciExtendedMessageInterrupt(accessor: Accessor.Single)

  /** `From<Debug>`: the Debug variant, holding the register block as it is. */
  function FromDebug(d: DebugCapability.Debug): (c: ExtendedCapability)
    ensures c.Debug? && c.debug == d
  {
    Debug(d)
  }

  /** `From<Single<XhciExtendedMessageInterrupt, M>>`: the Extended Message
      Interrupt variant, holding the accessor as it is. */
  function FromXhciExtendedMessageInterrupt(x: Accessor.Single): (c: ExtendedCapability)
    ensures c.XhciExtendedMessageInterrupt? && c.accessor == x
  {
    XhciExtendedMessageInterrupt(x)
  }

  /** The conversions lose nothing: distinct inputs stay distinct, and
      the two capabilities never convert to the same value. */
  lemma ConversionsInjective(d1: DebugCapability.Debug, d2: DebugCapability.Debug,
                             x1: Accessor.Single, x2: Accessor.Single)
    ensures FromDebug(d1) == FromDebug(d2) <==> d1 == d2
    ensures FromXhciExtendedMessageInterrupt(x1) == FromXhciExtendedMessageInterrupt(x2) <==> x1 == x2
    ensures FromDebug(d1) != FromXhciExtendedMessageInterrupt(x1)
  {
  }
}
