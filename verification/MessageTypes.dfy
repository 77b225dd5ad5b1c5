/** What the messages between the validator manager and the P-Chain are about. Identifiers and addresses are numbers. */
module MessageTypes {
  import opened Numeric

  datatype PChainOwner = PChainOwner(threshold: nat, addresses: seq<nat>)

  /** The information that identifies a validation period; its hash is the validation ID. */
  datatype ValidationPeriod = ValidationPeriod(
    subnetID: nat,
    nodeID: seq<Byte>,
    blsPublicKey: seq<Byte>,
    registrationExpiry: nat,
    remainingBalanceOwner: PChainOwner,
    disableOwner: PChainOwner,
    weight: nat)

  datatype InitialValidator = InitialValidator(nodeID: seq<Byte>, blsPublicKey: seq<Byte>, weight: nat)

  datatype ConversionData = ConversionData(
    subnetID: nat,
    validatorManagerBlockchainID: nat,
    validatorManagerAddress: nat,
    initialValidators: seq<InitialValidator>)
}
