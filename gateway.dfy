/** The Socket.IO gateway of the backend: a count of connected clients, the rooms each
    client joined, and the stream of events broadcast to every connected client. */
module Gateway {
  import opened AccidentSchema

  /** A broadcast document: the record's fields plus the `_event` tag. */
  datatype Payload = Payload(record: Accident, eventTag: string)

  /** One `server.emit`: an event name and its payload, sent to every connected client. */
  datatype Emission = Emission(event: string, payload: Payload)

  function NewAccidentEmission(a: Accident): Emission {
    Emission("new-accident", Payload(a, "new"))
  }

  function UpdateEmission(a: Accident): Emission {
    Emission("accident-update", Payload(a, "update"))
  }

  /** The acknowledgement of `subscribe-severity`. */
  datatype Ack = Ack(event: string, severity: string)

  /** The reply to `ping`. */
  datatype Pong = Pong(event: string, timestamp: int)

  /** The room a severity subscription joins. */
  function SeverityRoom(severity: string): (room: string)
    ensures |room| == 9 + |severity| && room[..9] == "severity-" && room[9..] == severity
  {
    "severity-" + severity
  }

  class EventsGateway {
    var connectedClients: int
    var rooms: map<string, set<string>>
    var outbox: seq<Emission>
    ghost var connects: nat
    ghost var disconnects: nat

    /** The counter is the number of connection events minus the number of disconnection
        events; nothing keeps it from going below zero. */
    ghost predicate Valid()
      reads this
    {
      connectedClients == connects - disconnects
    }

    constructor()
      ensures Valid()
      ensures connectedClients == 0 && rooms == map[] && outbox == []
      ensures connects == 0 && disconnects == 0
    {
      connectedClients := 0;
      rooms := map[];
      outbox := [];
      connects := 0;
      disconnects := 0;
    }

    method HandleConnection(client: string)
      requires Valid()
      modifies this`connectedClients, this`connects
      ensures Valid()
      ensures connects == old(connects) + 1 && disconnects == old(disconnects)
      ensures connectedClients == old(connectedClients) + 1
    {
      connectedClients := connectedClients + 1;
      connects := connects + 1;
    }

    method HandleDisconnect(client: string)
      requires Valid()
      modifies this`connectedClients, this`disconnects
      ensures Valid()
      ensures disconnects == old(disconnects) + 1 && connects == old(connects)
      ensures connectedClients == old(connectedClients) - 1
    {
      connectedClients := connectedClients - 1;
      disconnects := disconnects + 1;
    }

    /** Broadcasts a newly stored record under `new-accident`, tagged `new`. */
    method EmitAccident(a: Accident)
      modifies this`outbox
      ensures outbox == old(outbox) + [NewAccidentEmission(a)]
      ensures connectedClients == old(connectedClients) && rooms == old(rooms)
    {
      outbox := outbox + [NewAccidentEmission(a)];
    }

    /** Broadcasts a changed record under `accident-update`, tagged `update`. */
    method EmitAccidentUpdate(a: Accident)
      modifies this`outbox
      ensures outbox == old(outbox) + [UpdateEmission(a)]
      ensures connectedClients == old(connectedClients) && rooms == old(rooms)
    {
      outbox := outbox + [UpdateEmission(a)];
    }

    /** Joins the client to the room of the severity and acknowledges with the severity. */
    method HandleSubscribeSeverity(client: string, severity: string) returns (ack: Ack)
      modifies this`rooms
      ensures ack == Ack("subscribed", severity)
      ensures client in rooms
      ensures rooms[client] == (if client in old(rooms) then old(rooms)[client] else {}) + {SeverityRoom(severity)}
      ensures forall c :: c in old(rooms) && c != client ==> c in rooms && rooms[c] == old(rooms)[c]
      ensures forall c :: c in rooms ==> c == client || c in old(rooms)
    {
      var joined := if client in rooms then rooms[client] else {};
      rooms := rooms[client := joined + {SeverityRoom(severity)}];
      ack := Ack("subscribed", severity);
    }

    /** Answers a ping with the current time; nothing changes. */
    method HandlePing(client: string, now: int) returns (pong: Pong)
      ensures pong.event == "pong" && pong.timestamp == now
    {
      pong := Pong("pong", now);
    }
  }
}
