/**
 What one vehicle's jobs can see and change on chain: the owner of its NFT, the
 SACD records at the token's current version, and the synthetic devices its
 jobs have burned.
 */
module VehicleChain {
  import opened Wrappers
  import opened Sacd

  /** A canonical address; zero is the zero address. */
  type Address = nat

  type TokenId = int

  datatype Vehicle = Vehicle(
    owner: Option<Address>,
    version: nat,
    records: map<(nat, Address), Record>,
    burnedDevices: set<int>)

  /** `ReadCurrentGrant`: the record a setPermissions call for this grantee would overwrite. */
  function CurrentGrant(v: Vehicle, grantee: Address): Record {
    if (v.version, grantee) in v.records then v.records[(v.version, grantee)] else NO_RECORD
  }

  datatype Call =
    | SetPermissions(grantee: Address, record: Record)
    | TransferTo(target: Address)
    | BurnVehicle
    | BurnDevice(device: int)

  /** Whether the contracts let this kernel make the call: only the NFT's owner may touch the NFT or its records. */
  predicate Permits(v: Vehicle, kernel: Address, call: Call) {
    call.BurnDevice? || v.owner == Some(kernel)
  }

  /** A transfer bumps the version, so records left by the previous owner become unreachable. */
  function Execute(v: Vehicle, call: Call): Vehicle {
    match call
    case SetPermissions(g, r) => v.(records := v.records[(v.version, g) := r])
    case TransferTo(t) => v.(owner := Some(t), version := v.version + 1)
    case BurnVehicle => v.(owner := None, version := v.version + 1)
    case BurnDevice(d) => v.(burnedDevices := v.burnedDevices + {d})
  }

  /**
   How the bundler answered one UserOp: refused it, returned a receipt, or let
   the receipt window close with the operation landed or lost.
   */
  datatype Delivery = Refused | Confirmed | Unconfirmed(landed: bool)

  datatype Sent = Sent(vehicle: Vehicle, receipt: bool)

  /** One UserOp. A call the kernel may not make is refused whatever the bundler would have said. */
  function Send(v: Vehicle, kernel: Address, call: Call, d: Delivery): Sent {
    if !Permits(v, kernel, call) || d.Refused? then Sent(v, false)
    else if d.Confirmed? then Sent(Execute(v, call), true)
    else Sent(if d.landed then Execute(v, call) else v, false)
  }
}
