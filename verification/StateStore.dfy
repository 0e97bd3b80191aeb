/** The state bundles, the in-process store, and the NOTIFY bodies made from them. */
module StateStore {
  import opened Prelude

  datatype ElementState =
    Normal | ScheduledMaintenance | ServiceDisruption | Overloaded | GoingDown | Down | Unreachable

  datatype ServiceState =
    SNormal | SUnstaffed | SScheduledMaintenanceDown | SScheduledMaintenanceAvailable
    | SMajorIncidentInProgress | SPartial | SOverloaded | SGoingDown | SDown | SUnreachable

  datatype Posture = Green | Yellow | Orange | Red

  datatype ElementBundle = ElementBundle(state: ElementState, reason: string)

  datatype PostureBundle = PostureBundle(posture: Posture, reason: string)

  datatype ServiceBundle =
    ServiceBundle(state: ServiceState, reason: string, posture: Option<PostureBundle>)

  /** The construction parameters of the two notifiers that show in a body. */
  datatype Config = Config(elementId: string, service: string, name: string,
                           serviceId: Option<string>, domain: string, supportsPosture: bool)

  datatype PostureBody = PostureBody(posture: Posture, reason: Option<string>)

  /** A NOTIFY body; an absent JSON member is None. */
  datatype Body =
    | ElementBody(elementId: string, elementState: ElementState, elementReason: Option<string>)
    | ServiceBody(service: string, name: string, serviceId: Option<string>, domain: string,
                  serviceState: ServiceState, serviceReason: string,
                  securityPosture: Option<PostureBody>)

  function OmitEmpty(reason: string): Option<string> {
    if reason == "" then None else Some(reason)
  }

  function ElementNotifyBody(cfg: Config, b: ElementBundle): Body {
    ElementBody(cfg.elementId, b.state, OmitEmpty(b.reason))
  }

  function ServiceNotifyBody(cfg: Config, b: ServiceBundle): Body {
    ServiceBody(cfg.service, cfg.name, cfg.serviceId, cfg.domain, b.state, b.reason,
      if !cfg.supportsPosture then None
      else Some(match b.posture
                case None => PostureBody(Green, None)
                case Some(p) => PostureBody(p.posture, OmitEmpty(p.reason))))
  }

  /** What each member of the two bodies shows: an empty reason is left out of an element body
      and of a posture but not of a service body, and an unset posture reads as Green. */
  lemma BodiesSay(cfg: Config, e: ElementBundle, v: ServiceBundle)
    ensures var b := ElementNotifyBody(cfg, e);
      && b.ElementBody? && b.elementId == cfg.elementId && b.elementState == e.state
      && b.elementReason == (if e.reason == "" then None else Some(e.reason))
    ensures var b := ServiceNotifyBody(cfg, v);
      && b.ServiceBody? && b.service == cfg.service && b.name == cfg.name && b.serviceId == cfg.serviceId
      && b.domain == cfg.domain && b.serviceState == v.state && b.serviceReason == v.reason
      && (b.securityPosture.Some? <==> cfg.supportsPosture)
      && (cfg.supportsPosture ==>
            var shown := if v.posture.Some? then v.posture.value else PostureBundle(Green, "");
            b.securityPosture.value.posture == shown.posture
            && b.securityPosture.value.reason == if shown.reason == "" then None else Some(shown.reason))
  {
  }

  /** What a subscriber can tell apart: a body shows everything in the element bundle, and
      everything in the service bundle except that an unset posture reads as plain Green and
      that a posture is not shown at all when unsupported. */
  lemma BodiesDetermineBundles(cfg: Config, a: ElementBundle, b: ElementBundle,
                               c: ServiceBundle, d: ServiceBundle)
    ensures ElementNotifyBody(cfg, a) == ElementNotifyBody(cfg, b) <==> a == b
    ensures ServiceNotifyBody(cfg, c) == ServiceNotifyBody(cfg, d) <==>
      && c.state == d.state && c.reason == d.reason
      && (cfg.supportsPosture ==>
            c.posture == d.posture
            || {c.posture, d.posture} == {None, Some(PostureBundle(Green, ""))})
  {
  }

  /** What the notifier seeds at construction, and what startup then writes over it, look the
      same to a subscriber exactly when no posture is shown or the seed was Green. */
  lemma SeedSurvivesStartup(cfg: Config, initial: Posture)
    ensures ServiceNotifyBody(cfg, ServiceBundle(SNormal, "", None))
              == ServiceNotifyBody(cfg, ServiceBundle(SNormal, "", Some(PostureBundle(initial, ""))))
            <==> !cfg.supportsPosture || initial == Green
  {
  }

  /** `InProcessStateStore`: setting one bundle leaves the other alone. */
  class InProcessStateStore {
    var element: ElementBundle
    var service: ServiceBundle

    constructor ()
      ensures element == ElementBundle(Normal, "")
      ensures service == ServiceBundle(SNormal, "", None)
    {
      element := ElementBundle(Normal, "");
      service := ServiceBundle(SNormal, "", None);
    }

    method SetElementState(b: ElementBundle)
      modifies this`element
      ensures element == b
    {
      element := b;
    }

    method SetServiceState(b: ServiceBundle)
      modifies this`service
      ensures service == b
    {
      service := b;
    }
  }
}
