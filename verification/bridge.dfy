/** The two halves of the bridge meet in the last-seen metadata: the
    subscription tasks write it and `GET /metadata` serves it. */
module Bridge {
  import opened Wrappers
  import opened Subscriber
  import Server

  /** `GET /metadata` serves the tagged form of the most recent message,
      whichever topic it came on. */
  lemma MetadataServesLastMessage(fetchMethod: string, ds: seq<Delivery>, i: nat)
    requires i < |ds| && ds[i].event.Received?
    requires forall j :: i < j < |ds| ==> ds[j].event.ReceiveFailed?
    ensures Server.HandleMetadata(Server.Get, Run(fetchMethod, Initial, ds).lastSeen)
      == Server.Reply(Some(Server.StatusOK), Server.MetadataContentType,
                      Server.Json(Some(Tag(ds[i].event.data, ds[i].topic))))
  {
    LastWriterWins(fetchMethod, Initial, ds, i);
  }

  /** Before any message arrives, `GET /metadata` serves the nil map. */
  lemma MetadataBeforeAnyMessage(fetchMethod: string, ds: seq<Delivery>)
    requires forall j :: 0 <= j < |ds| ==> ds[j].event.ReceiveFailed?
    ensures Server.HandleMetadata(Server.Get, Run(fetchMethod, Initial, ds).lastSeen)
      == Server.Reply(Some(Server.StatusOK), Server.MetadataContentType, Server.Json(None))
  {
    ErrorsChangeNothing(fetchMethod, Initial, ds);
  }
}
