/** Events and configuration (internal/model/types.go). */
module Model {
  import opened Basics

  datatype VarBind = VarBind(oid: string, typeName: string, value: string)

  /** The value of a trap event at one moment. */
  datatype Trap = Trap(
    receivedAt: int,
    sourceIP: string,
    sourcePort: int,
    rawBytes: seq<byte>,
    version: int,
    community: string,
    pduType: string,
    enterpriseOid: string,
    agentAddress: string,
    genericTrap: string,
    genericTrapName: string,
    specificTrap: string,
    uptime: string,
    requestId: int,
    errorStatus: int,
    errorIndex: int,
    trapOid: string,
    varBinds: seq<VarBind>,
    rawVarBindMap: map<string, string>,
    fields: map<string, string>,
    alertsLogged: bool)

  /** A trap event, whose fields the parser and the engine fill in place. */
  class TrapEvent {
    var receivedAt: int
    var sourceIP: string
    var sourcePort: int
    var rawBytes: seq<byte>
    var version: int
    var community: string
    var pduType: string
    var enterpriseOid: string
    var agentAddress: string
    var genericTrap: string
    var genericTrapName: string
    var specificTrap: string
    var uptime: string
    var requestId: int
    var errorStatus: int
    var errorIndex: int
    var trapOid: string
    var varBinds: seq<VarBind>
    var rawVarBindMap: map<string, string>
    var fields: map<string, string>
    var alertsLogged: bool

    function View(): Trap
      reads this
    {
      Trap(receivedAt, sourceIP, sourcePort, rawBytes, version, community, pduType, enterpriseOid,
           agentAddress, genericTrap, genericTrapName, specificTrap, uptime, requestId, errorStatus,
           errorIndex, trapOid, varBinds, rawVarBindMap, fields, alertsLogged)
    }

    /** A freshly received message: header fields set, everything else at its zero value. */
    constructor (receivedAt: int, sourceIP: string, sourcePort: int, rawBytes: seq<byte>, version: int,
                 community: string, pduType: string)
      ensures View() == Received(receivedAt, sourceIP, sourcePort, rawBytes, version, community, pduType)
    {
      this.receivedAt, this.sourceIP, this.sourcePort, this.rawBytes := receivedAt, sourceIP, sourcePort, rawBytes;
      this.version, this.community, this.pduType := version, community, pduType;
      enterpriseOid, agentAddress, genericTrap, genericTrapName, specificTrap := "", "", "", "", "";
      uptime, requestId, errorStatus, errorIndex, trapOid := "", 0, 0, 0, "";
      varBinds, rawVarBindMap, fields, alertsLogged := [], map[], map[], false;
    }
  }

  function Received(receivedAt: int, sourceIP: string, sourcePort: int, rawBytes: seq<byte>, version: int,
                    community: string, pduType: string): Trap
  {
    Trap(receivedAt, sourceIP, sourcePort, rawBytes, version, community, pduType, "", "", "", "", "", "",
         0, 0, 0, "", [], map[], map[], false)
  }
}
