/** One control connection: a frame in, a frame out. */
module RegistryConnection {
  import opened Prelude
  import opened WireFields
  import opened RegistryInvariant
  import Service = RegistryService
  import Ask = WireRequests
  import Answer = WireResponses
  import Spec = Registry

  /**
   * Every frame that decodes is answered with a frame that the other side decodes; any other frame
   * leaves the registry alone.
   */
  method HandleConnection(
    registry: Service.Registry, now: nat, frame: seq<Byte>) returns (r: Result<seq<Byte>, ProtocolError>)
    requires Inv(registry.lib, registry.config, registry.View()) && registry.config.leaseMs <= U64_MAX
    modifies registry
    ensures Inv(registry.lib, registry.config, registry.View())
    ensures r.Err? ==> unchanged(registry) && forall q | Ask.Wire(q) == frame :: !Ask.Valid(registry.lib, q)
    ensures forall q | Ask.Wire(q) == frame && Ask.Valid(registry.lib, q) ::
              var (s, p) := Spec.Handle(registry.lib, registry.config, old(registry.View()), now, q);
              && r == Ok(Answer.Wire(p)) && Answer.Valid(registry.lib, p)
              && registry.View() == Spec.Purged(s, now)
  {
    hide Inv, Spec.Handle, Spec.Purged, Ask.Valid, Ask.Wire, Answer.Wire;
    var request :- Ask.DecodeRequest(registry.lib, frame);
    HandleInv(registry.lib, registry.config, registry.View(), now, request);
    var response := registry.HandleRequest(now, request);
    PurgedInv(registry.lib, registry.config, registry.View(), now);
    registry.Purge(now);
    r := Answer.EncodeResponse(registry.lib, response);
  }
}
