/** The handler of `POST /router-service`: validate, load once, upsert the
    service, point the router at it, upsert the router, save once. */
module CombinedRoute {
  import opened Document
  import opened ConfigStore

  const CreatedMessage: string := "Router and service created successfully"
  const CreateFailedMessage: string := "Failed to create router and service"

  /** The HTTP answer: 200 with the two names, 400 with the validator's
      message, or 500. */
  datatype Response =
    | Created(message: string, router: string, service: string)
    | BadRequest(error: string)
    | ServerError(error: string)

  /** The two in-place edits of the handler, service first. The router is
      stored with `service` overwritten by the payload's service name. */
  function UpsertRouterService(c: Config, data: RouterServicePayload): (r: Option<Config>)
    ensures r.Some? <==> c.http.Some? && c.http.value.services.Some? && c.http.value.routers.Some?
    ensures r.Some? ==>
      && r.value.http.Some? && r.value.http.value.services.Some? && r.value.http.value.routers.Some?
      && UpdatedAt(c.http.value.services.value, r.value.http.value.services.value, data.serviceName, data.service)
      && UpdatedAt(c.http.value.routers.value, r.value.http.value.routers.value, data.routerName,
                   data.router.(service := data.serviceName))
      && r.value.http.value.middlewares == c.http.value.middlewares
      && r.value.http.value.serversTransports == c.http.value.serversTransports
  {
    match SetService(c, data.serviceName, data.service)
    case None => None
    case Some(c1) => SetRouter(c1, data.routerName, data.router.(service := data.serviceName))
  }

  /** Whatever service name the router payload carried, the stored router
      names the designated service. */
  lemma StoredRouterNamesService(c: Config, data: RouterServicePayload)
    requires UpsertRouterService(c, data).Some?
    ensures var h := UpsertRouterService(c, data).value.http.value;
      data.routerName in h.routers.value && h.routers.value[data.routerName].service == data.serviceName
      && data.serviceName in h.services.value && h.services.value[data.serviceName] == data.service
  {
  }

  /** `validationError` is the schema validator's verdict on the request
      body: `Some(message)` when it rejects it. */
  method CreateRouterService(svc: ConfigService, validationError: Option<string>, data: RouterServicePayload)
    returns (resp: Response)
    modifies svc.fs
    ensures validationError.Some? ==>
      && resp == BadRequest(validationError.value)
      && svc.fs.files == old(svc.fs.files) && svc.fs.written == old(svc.fs.written)
    ensures validationError.None? ==>
      var next := UpsertRouterService(old(svc.Loaded()), data);
      && (resp.Created? <==> next.Some? && svc.dynamicFilePath !in svc.fs.faulty)
      && (resp.Created? ==>
            && resp == Created(CreatedMessage, data.routerName, data.serviceName)
            && svc.fs.files == old(svc.fs.files)[svc.dynamicFilePath := Yaml(next.value)]
            && svc.fs.written == old(svc.fs.written) + [svc.dynamicFilePath])
      && (!resp.Created? ==>
            && resp == ServerError(CreateFailedMessage)
            && svc.fs.files == old(svc.fs.files) && svc.fs.written == old(svc.fs.written))
    ensures svc.fs.dirs == old(svc.fs.dirs)
  {
    if validationError.Some? {
      return BadRequest(validationError.value);
    }
    var c := svc.LoadFullConfig();
    var withService := SetService(c, data.serviceName, data.service);
    if withService.None? {
      return ServerError(CreateFailedMessage);
    }
    var router := data.router.(service := data.serviceName);
    var next := SetRouter(withService.value, data.routerName, router);
    if next.None? {
      return ServerError(CreateFailedMessage);
    }
    var saved := svc.SaveFullConfig(next.value);
    if saved.Fail? {
      return ServerError(CreateFailedMessage);
    }
    resp := Created(CreatedMessage, data.routerName, data.serviceName);
  }
}
