# Traefik GUI: configuration store and forms

This project models the core of Traefik GUI, a web editor for a Traefik
dynamic-configuration file. It has two sides.

- **The backend.** `ConfigService` keeps the whole configuration in one YAML
  file, `dynamic.yml`. Every save or delete of a router, a service or a
  middleware loads that file, edits one section in place and writes the
  whole document back. A separate operation splits the document into
  `routers.yml`, `services.yml` and `middlewares.yml` under a config
  directory. The `POST /router-service` handler creates a router and its
  service in one load and one save.
- **The browser.** The router, service, middleware and combined
  router-and-service forms convert entities to form values when an entity
  is opened, and form values to entities on submit. The middleware list page
  gives each middleware a type label, a description and a tag colour.

The modules follow the source files:

- `Document` (document.dfy) holds the entity types and the document.
- `ConfigStore` (config_store.dfy) holds the file system and
  `ConfigService`.
- `CombinedRoute` (combined_route.dfy) is the combined handler.
- `FormValues` (form_values.dfy) has the helpers the forms share: list
  filtering, JavaScript `trim`, and header records.
- `RouterForm`, `ServiceForm`, `MiddlewareForm` and `CombinedForm` model
  the four forms.
- `MiddlewaresPage` models the list page's three classifiers.

The file system is a class. Its `files` map paths to contents, `dirs` is
the set of existing directories, and `faulty` is the set of locations where
a write or a directory creation fails. YAML is abstracted: a document
written to a path reads back as that same document. A file that is missing,
unreadable or not YAML loads as the empty default.

The code has no storage mode: `loadFullConfig` reads only
`DYNAMIC_FILE_PATH`, and no operation reads the split files. The model has
no storage mode either.

A malformed or unreadable `dynamic.yml` loads as the empty default, so the
next save overwrites it with a document built from that default. The model
captures this.

Sections of the document are optional, because a hand-written file may omit
them or leave them null:

- `loadRouters`, `loadServices` and `loadMiddlewares` default an absent
  section to `{}`.
- `saveX` and `deleteX` assign into the section directly. On an absent
  section that is a runtime `TypeError`, raised before anything is written.
  The model returns `Fail(TypeError)` and leaves the files unchanged.
- A document without `http` makes every accessor raise the same error.
  `splitConfigIntoFiles` raises it inside its `try` block, so it becomes
  "Failed to split configuration".

## Model

| member | source | states |
|---|---|---|
| Document.OrDefault | frontend/src/components/ServiceForm.tsx:48-50 | `x \|\| fallback` on an optional string, as the forms use it and as the service reads its two environment paths: a non-empty value wins, otherwise the fallback. |
| Document.EmptyConfig | backend/src/services/configService.ts:22-28 | The fallback document has empty `routers`, `services` and `middlewares` and no `serversTransports`. |
| ConfigStore.LoadResult | backend/src/services/configService.ts:16-30 | Loading gives the stored document when the file exists and parses, and otherwise the empty default. |
| ConfigStore.LoadAfterWrite | backend/src/services/configService.ts:18-19 | A document written to the dynamic file loads back unchanged. |
| ConfigStore.FileSystem.Exists | backend/src/services/configService.ts:11 | `existsSync` is true exactly when a file or a directory is at the path. |
| ConfigStore.FileSystem.MakeDirectory | backend/src/services/configService.ts:12 | `mkdirSync` succeeds exactly when the location is not faulty, and then adds the directory and nothing else. |
| ConfigStore.FileSystem.ReadYaml | backend/src/services/configService.ts:18-19 | The read gives a document exactly when the file exists and parses, and then gives that document. |
| ConfigStore.FileSystem.WriteYaml | backend/src/services/configService.ts:34-35 | `writeFileSync` succeeds exactly when the path is not faulty. It then stores the document and records the path; a failing write changes nothing. |
| ConfigStore.ConfigService.constructor | backend/src/services/configService.ts:6-7 | The two paths are `DYNAMIC_FILE_PATH` or `./dynamic.yml`, and `CONFIG_PATH` or `./config`. |
| ConfigStore.ConfigService.EnsureConfigDir | backend/src/services/configService.ts:10-14 | Creates the config directory only when nothing is at its path. It succeeds exactly when the path exists or can be created, and touches no file. |
| ConfigStore.ConfigService.LoadFullConfig | backend/src/services/configService.ts:16-30 | Returns the parsed dynamic file. When the file is missing, unreadable or malformed, it returns the document with three empty sections and no transports; it never fails. |
| ConfigStore.ConfigService.SaveFullConfig | backend/src/services/configService.ts:32-40 | Replaces the whole dynamic file with the document, as one write and nothing else. A failing write leaves the files as they were and raises `SaveFailed`. |
| ConfigStore.Failure.Message | backend/src/services/configService.ts:32-80 | Exactly the save and split failures carry the service's own messages. |
| ConfigStore.RoutersEnvelope | backend/src/services/configService.ts:47 | The routers file holds `{http: {routers}}` and no other section. |
| ConfigStore.ServicesEnvelope | backend/src/services/configService.ts:48-53 | The services file holds `services`, plus `serversTransports` exactly when the document has them. |
| ConfigStore.MiddlewaresEnvelope | backend/src/services/configService.ts:54 | The middlewares file holds `{http: {middlewares}}` and no other section. |
| ConfigStore.EnvelopesPartition | backend/src/services/configService.ts:47-54 | Taking the three files' sections back together reassembles the `http` section exactly. |
| ConfigStore.SplitWrites | backend/src/services/configService.ts:57-73 | The split writes go to `routers.yml`, `services.yml` and `middlewares.yml` under the config path, in that order, each with its envelope. |
| ConfigStore.SplitPathsDistinct | backend/src/services/configService.ts:57-73 | The three split paths are pairwise distinct. |
| ConfigStore.FirstFaulty | backend/src/services/configService.ts:57-73 | The split writes before the first failing one succeed, and the one at that index fails. |
| ConfigStore.ApplyWrites | backend/src/services/configService.ts:57-73 | Writes never remove a file. |
| ConfigStore.ApplyWritesOverride | backend/src/services/configService.ts:57-73 | Performing writes one after another equals overriding the old files with the last document written to each path. |
| ConfigStore.ApplyWritesIdempotent | backend/src/services/configService.ts:42-80 | Performing the same writes twice leaves the same files as performing them once. |
| ConfigStore.ApplyWritesElsewhere | backend/src/services/configService.ts:57-73 | A path that no write names keeps its content, or stays absent. |
| ConfigStore.ApplyWritesDistinct | backend/src/services/configService.ts:57-73 | Writes to distinct paths leave each path holding its own document. |
| ConfigStore.ConfigService.SplitConfigIntoFiles | backend/src/services/configService.ts:42-80 | If the directory cannot be created, the directory error propagates and no file is written. A document without `http` fails with `SplitFailed` and nothing written. Otherwise it performs the writes up to the first failing one, in order, and passes exactly when all three succeed. `dynamic.yml` is untouched unless it is itself one of the three split paths. |
| ConfigStore.ConfigService.WriteEnvelopes | backend/src/services/configService.ts:57-73 | The three envelope writes run in order and stop at the first failing one. The files and the written paths are those of the writes before it, and the result passes exactly when none fails. |
| ConfigStore.WriteStep | backend/src/services/configService.ts:57-73 | Once the earlier writes have succeeded, the next write fails exactly when its path is faulty. When it succeeds, it adds its document and its path to what the earlier writes produced. |
| ConfigStore.ConfigService.WriteEnvelope | backend/src/services/configService.ts:57-73 | One envelope write after the earlier ones succeeded. It succeeds exactly when it is not the first faulty write, and the files and written paths then cover one more write. |
| ConfigStore.SplitKeepsLoad | backend/src/services/configService.ts:16-80 | After any prefix of the split writes, the dynamic file loads as before, provided it is not one of the split paths. |
| ConfigStore.DefaultPathsSeparate | backend/src/services/configService.ts:6-73 | With the default locations, the dynamic file is none of the split files. |
| ConfigStore.SplitFileContents | backend/src/services/configService.ts:57-73 | After a complete split, each split file holds its own envelope. |
| ConfigStore.SplitIdempotent | backend/src/services/configService.ts:42-80 | Splitting the same document again, with the same failing locations, leaves the files as the first split left them. |
| ConfigStore.ConfigService.LoadRouters | backend/src/services/configService.ts:82-85 | Returns the loaded `routers`, or `{}` when the section is absent. A document without `http` raises `TypeError`. |
| ConfigStore.ConfigService.LoadServices | backend/src/services/configService.ts:87-90 | Returns the loaded `services`, or `{}` when absent. A document without `http` raises `TypeError`. |
| ConfigStore.ConfigService.LoadMiddlewares | backend/src/services/configService.ts:92-95 | Returns the loaded `middlewares`, or `{}` when absent. A document without `http` raises `TypeError`. |
| ConfigStore.SetRouter | backend/src/services/configService.ts:99 | Defined exactly when `http.routers` is present. The router is bound under the name as a full replace, every other router is kept, and the other sections are unchanged. |
| ConfigStore.RemoveRouter | backend/src/services/configService.ts:105 | Defined exactly when `http.routers` is present. The name is absent afterwards, every other router is kept, and the other sections are unchanged. |
| ConfigStore.SetService | backend/src/services/configService.ts:111 | As `SetRouter`, for `http.services`. |
| ConfigStore.RemoveService | backend/src/services/configService.ts:117 | As `RemoveRouter`, for `http.services`. |
| ConfigStore.SetMiddleware | backend/src/services/configService.ts:123 | As `SetRouter`, for `http.middlewares`. |
| ConfigStore.RemoveMiddleware | backend/src/services/configService.ts:129 | As `RemoveRouter`, for `http.middlewares`. |
| ConfigStore.RemoveAbsentRouter | backend/src/services/configService.ts:103-107 | Deleting a router that is not there changes nothing, and the delete still saves. |
| ConfigStore.RemoveAbsentService | backend/src/services/configService.ts:115-119 | Deleting a service that is not there changes nothing. |
| ConfigStore.RemoveAbsentMiddleware | backend/src/services/configService.ts:127-131 | Deleting a middleware that is not there changes nothing. |
| ConfigStore.SetRouterReplaces | backend/src/services/configService.ts:97-101 | Saving under a name twice keeps only the second router; a save does no field merge. |
| ConfigStore.ConfigService.Commit | backend/src/services/configService.ts:97-131 | The save step of every save and delete: an edit that raised a `TypeError` writes nothing and fails with it, and any other edit is saved as by `saveFullConfig`. |
| ConfigStore.ConfigService.SaveRouter | backend/src/services/configService.ts:97-101 | Loads, binds the router and saves once. On success, the dynamic file loads as the edited document. When `routers` is absent, it raises `TypeError` with no write. |
| ConfigStore.ConfigService.DeleteRouter | backend/src/services/configService.ts:103-107 | Loads, removes the name and saves once, including when the name was absent. When `routers` is absent, it raises `TypeError` with no write. |
| ConfigStore.ConfigService.SaveService | backend/src/services/configService.ts:109-113 | As `SaveRouter`, for services. |
| ConfigStore.ConfigService.DeleteService | backend/src/services/configService.ts:115-119 | As `DeleteRouter`, for services. |
| ConfigStore.ConfigService.SaveMiddleware | backend/src/services/configService.ts:121-125 | As `SaveRouter`, for middlewares. |
| ConfigStore.ConfigService.DeleteMiddleware | backend/src/services/configService.ts:127-131 | As `DeleteRouter`, for middlewares. |
| CombinedRoute.UpsertRouterService | backend/src/routes/combined.ts:60-69 | Defined exactly when both `services` and `routers` are present. The service is bound under its name, and the router under its name with `service` overwritten by the service name. Every other router and service, the middlewares and the transports are unchanged. |
| CombinedRoute.StoredRouterNamesService | backend/src/routes/combined.ts:63-69 | Whatever service name the payload's router carried, the stored router names the designated service, and the stored service is the payload's. |
| CombinedRoute.CreateRouterService | backend/src/routes/combined.ts:49-83 | A validation error answers 400 before any load or write. Otherwise it answers 200 with the two names exactly when both sections exist and the single save succeeds, after exactly one write of the upserted document. Any other case answers 500 with nothing written. |
| FormValues.NonEmpty | frontend/src/components/RouterForm.tsx:64-77 | The filter never lengthens the list. |
| FormValues.NonEmptyMembers | frontend/src/components/RouterForm.tsx:64-77 | `filter(Boolean)` on strings keeps exactly the non-empty elements, and its result has no empty element. |
| FormValues.NonEmptyKeepsAll | frontend/src/components/RouterForm.tsx:64-77 | A list with no empty element passes the filter unchanged. |
| FormValues.NonEmptyAppend | frontend/src/components/RouterForm.tsx:64 | Filtering distributes over concatenation, so the relative order of the kept elements is preserved. |
| FormValues.IsJsWhitespace | frontend/src/components/ServiceForm.tsx:59 | The characters `trim()` removes. Among ASCII they are exactly tab, line feed, vertical tab, form feed, carriage return and space. NEL (U+0085) and the zero-width space (U+200B) are not removed. |
| FormValues.TrimStart | frontend/src/components/ServiceForm.tsx:59 | `trimStart`: the longest suffix without leading JavaScript whitespace. |
| FormValues.TrimEnd | frontend/src/components/ServiceForm.tsx:59 | `trimEnd`: the longest prefix without trailing JavaScript whitespace. |
| FormValues.Trim | frontend/src/components/ServiceForm.tsx:59-71 | `trim()` is empty exactly when the string is all whitespace; otherwise it starts and ends with a non-whitespace character. |
| FormValues.Lookup | frontend/src/components/MiddlewareForm.tsx:137 | A record lookup finds a value exactly for the record's keys. |
| FormValues.Put | frontend/src/components/MiddlewareForm.tsx:137 | Assigning a new key appends an entry; assigning an existing key keeps the record's length. |
| FormValues.PutLookup | frontend/src/components/MiddlewareForm.tsx:137 | After `obj[k] = v`, `k` maps to `v` and every other key keeps its value. |
| FormValues.PutKeys | frontend/src/components/MiddlewareForm.tsx:137 | After `obj[k] = v`, the keys are the old keys plus `k`. |
| FormValues.PutDistinct | frontend/src/components/MiddlewareForm.tsx:137 | Assignment keeps each key once. |
| FormValues.HeaderRecord | frontend/src/components/MiddlewareForm.tsx:133-140 | The record built from rows has at most one entry per row. |
| FormValues.HeaderRecordDistinct | frontend/src/components/MiddlewareForm.tsx:133-148 | A header record built from rows keeps each key once. |
| FormValues.AssignedKeysMembers | frontend/src/components/MiddlewareForm.tsx:136 | A key is an assigned key exactly when some row with a non-empty key and a non-empty value carries it. |
| FormValues.HeaderRecordKeys | frontend/src/components/MiddlewareForm.tsx:135-139 | The record's keys are exactly the assigned keys: those of the rows whose key and value are both non-empty. |
| FormValues.HeaderRecordLaterWins | frontend/src/components/MiddlewareForm.tsx:135-139 | When a key repeats, the record holds the value of its last assigned row. |
| FormValues.HeaderRecordMissing | frontend/src/components/MiddlewareForm.tsx:136 | A key that no assigned row carries is not in the record; rows with an empty key or value are skipped. |
| FormValues.HeaderRecordNone | frontend/src/components/MiddlewareForm.tsx:136 | Rows that all miss a key or a value build the empty record. |
| FormValues.AssignedEntries | frontend/src/components/MiddlewareForm.tsx:96-136 | The entries of a record with non-empty key and value are kept in order; a record whose entries are all such comes back whole. |
| FormValues.HeaderRecordOfRecord | frontend/src/components/MiddlewareForm.tsx:96-139 | Rebuilding a record from its own entries keeps exactly the entries with a non-empty key and value, in order. |
| FormValues.BuildHeaderRecord | frontend/src/components/MiddlewareForm.tsx:133-140 | The `forEach` loop that fills a header record builds exactly `HeaderRecord(rows)`. |
| RouterForm.RouterToForm | frontend/src/components/RouterForm.tsx:47-57 | Opening a router shows its name, entry points, rule and service as they are. TLS is on exactly when `tls` is truthy, so not absent and not `false`. The resolver field is non-empty exactly when `tls` is an object with a non-empty resolver, and then shows it. Middlewares are the list, or empty when absent. |
| RouterForm.TlsTruthy | frontend/src/components/RouterForm.tsx:55 | `!!router.tls` is true exactly when `tls` is present and is not `false`. |
| RouterForm.CertResolverOf | frontend/src/components/RouterForm.tsx:49-56 | `tlsConfig?.certResolver \|\| ''` is non-empty exactly when `tls` is an object with a non-empty resolver, and is then that resolver. |
| RouterForm.TlsFromForm | frontend/src/components/RouterForm.tsx:69-75 | TLS off gives no `tls`; on with a resolver gives `{certResolver}`; on without one gives `true`. Reading the result back gives the same switch, and the same resolver when TLS is on. |
| RouterForm.RouterFromForm | frontend/src/components/RouterForm.tsx:62-83 | Saves under the name field. Entry points are the non-empty values in order; `rule` and `service` are copied; `middlewares` is present exactly when the filtered list is non-empty; `tls` is exactly `TlsFromForm` of the switch and the resolver, and a present `middlewares` is the filtered list. The result is always canonical. |
| RouterForm.RouterRoundTrip | frontend/src/components/RouterForm.tsx:47-83 | Opening a router and submitting unchanged saves its normalized form under the same name. |
| RouterForm.NormalizedFixesCanonical | frontend/src/components/RouterForm.tsx:47-83 | A router survives the round trip unchanged exactly when it is canonical: no empty list element, no empty middleware list, and `tls` absent, `true` or with a non-empty resolver. |
| RouterForm.LossyRoundTrips | frontend/src/components/RouterForm.tsx:49-80 | `tls: {}` comes back as `true`; `tls: false` and `middlewares: []` come back absent. |
| RouterForm.FormRoundTrip | frontend/src/components/RouterForm.tsx:47-83 | Submitting and reopening shows the filtered lists, and an empty resolver when TLS is off; every other field is unchanged. |
| ServiceForm.NonBlankServersMembers | frontend/src/components/ServiceForm.tsx:59 | The filter keeps exactly the servers whose trimmed URL is non-empty. |
| ServiceForm.NonBlankServers | frontend/src/components/ServiceForm.tsx:59 | The filter never lengthens the list. |
| ServiceForm.KeptServer | frontend/src/components/ServiceForm.tsx:59 | One server passes the filter exactly when its URL is not blank, and is then kept as it is. |
| ServiceForm.NonBlankServersAppend | frontend/src/components/ServiceForm.tsx:59 | The filter distributes over concatenation, so the kept servers keep their order and each is kept or dropped where it stands. |
| ServiceForm.NonBlankServersKeepsAll | frontend/src/components/ServiceForm.tsx:59 | Servers that all have a non-blank URL are all kept, in order. |
| ServiceForm.ServiceToForm | frontend/src/components/ServiceForm.tsx:42-52 | Opening a service shows its name and servers. Health check is on exactly when one is present. Each health-check field shows the present non-empty value, otherwise `/health`, `30s` or `10s`. The transport shows its value, or is empty when absent. |
| ServiceForm.LoadBalancerFromForm | frontend/src/components/ServiceForm.tsx:57-73 | Blank servers are dropped. A health check with all three fields is present exactly when enabled. The transport, untrimmed, is present exactly when its trimmed value is non-empty. |
| ServiceForm.ServiceFromForm | frontend/src/components/ServiceForm.tsx:57-75 | The service is saved under the name field unchanged, and its load balancer is exactly `LoadBalancerFromForm` of the form's fields. |
| ServiceForm.ServiceRoundTrip | frontend/src/components/ServiceForm.tsx:42-76 | Opening a service and submitting unchanged saves its normalized form: blank servers dropped, a present health check completed with `/health`, `30s` and `10s`, and a blank transport dropped. |
| ServiceForm.NormalizedFixesCanonical | frontend/src/components/ServiceForm.tsx:42-76 | A service survives the round trip unchanged exactly when its URLs and transport are not blank and a present health check has all three fields non-empty. |
| ServiceForm.FromFormCanonical | frontend/src/components/ServiceForm.tsx:56-76 | A submitted service whose enabled health-check fields are filled in is reproduced exactly by a further round trip. |
| ServiceForm.FormRoundTrip | frontend/src/components/ServiceForm.tsx:42-76 | Submitting and reopening shows the non-blank servers, the defaults in place of empty or disabled health-check fields, and an empty transport in place of a blank one. |
| MiddlewareForm.SelectedType | frontend/src/components/MiddlewareForm.tsx:74-108 | The form opens on the first populated variant in the order errors, rate limit, headers, redirect. It opens on none exactly when no variant is populated. |
| MiddlewareForm.MiddlewareToPatch | frontend/src/components/MiddlewareForm.tsx:66-112 | The partial form record carries the name and, when some variant is populated, exactly the fields of the selected variant. |
| MiddlewareForm.ApplyPatch | frontend/src/components/MiddlewareForm.tsx:110 | `reset` sets the name and the patched variant's type and fields. Without a variant, only the name changes. |
| MiddlewareForm.EmptyMiddlewareOpensWithName | frontend/src/components/MiddlewareForm.tsx:70-110 | A middleware with no populated variant opens with only its name set. |
| MiddlewareForm.HeadersFromRows | frontend/src/components/MiddlewareForm.tsx:133-148 | A header record is present exactly when its list has rows, and is then the record those rows build. |
| MiddlewareForm.MiddlewareOf | frontend/src/components/MiddlewareForm.tsx:114-157 | Submit populates exactly the variant the `type` field selects, and none without a type. `status` is the non-empty codes in order. The headers variant is always present, with records as `HeadersFromRows`. |
| MiddlewareForm.SubmitMiddleware | frontend/src/components/MiddlewareForm.tsx:114-160 | The switch and the header loops save exactly `MiddlewareOf(form)` under the unchanged name. |
| MiddlewareForm.RecordRoundTrip | frontend/src/components/MiddlewareForm.tsx:96-148 | A record shown as rows and submitted comes back as its assigned entries; an absent or empty record comes back absent. |
| MiddlewareForm.MiddlewareRoundTrip | frontend/src/components/MiddlewareForm.tsx:66-160 | Opening a middleware with some variant and submitting unchanged saves its normalized form under the same name, whatever the form held before. |
| MiddlewareForm.NormalizedExact | frontend/src/components/MiddlewareForm.tsx:114-157 | A middleware with exactly one variant, no empty status code and stable header records is its own normalized form. |
| MiddlewareForm.MiddlewareExactRoundTrip | frontend/src/components/MiddlewareForm.tsx:66-160 | A middleware with exactly one variant, non-empty status codes and non-empty header records with non-empty keys and values comes back unchanged. |
| MiddlewareForm.PresentButEmptyRecord | frontend/src/components/MiddlewareForm.tsx:133-140 | Rows that all miss a key or a value give a record that is present and empty. |
| CombinedForm.IndexFrom | frontend/src/components/CombinedRouterServiceForm.tsx:73 | Finds the first occurrence at or after a position, or reports that there is none. |
| CombinedForm.IndexOf | frontend/src/components/CombinedRouterServiceForm.tsx:73 | Finds the first occurrence of the pattern, or reports that there is none. |
| CombinedForm.ReplaceFirst | frontend/src/components/CombinedRouterServiceForm.tsx:73 | `replace` with a string pattern replaces only the first occurrence and keeps everything around it. The replacement is inserted literally, without JavaScript's `$&` and `$$` expansions; the only replacement used, `-service`, contains no `$`. |
| CombinedForm.EndsWith | frontend/src/components/CombinedRouterServiceForm.tsx:72 | `endsWith(suffix)` holds exactly when the name is some string followed by the suffix. |
| CombinedForm.DerivedServiceName | frontend/src/components/CombinedRouterServiceForm.tsx:70-77 | An empty router name leaves the service name as it was. A non-empty one always yields a name containing `-service`. |
| CombinedForm.ServiceNameWithoutSuffix | frontend/src/components/CombinedRouterServiceForm.tsx:70-77 | An empty router name leaves the service name untouched. A non-empty name without `-router` at its end gets `-service` appended. |
| CombinedForm.ServiceNameSwapsSuffix | frontend/src/components/CombinedRouterServiceForm.tsx:72-73 | A name whose only `-router` is its suffix has that suffix swapped for `-service`. |
| CombinedForm.ServiceNameReplacesFirstOccurrence | frontend/src/components/CombinedRouterServiceForm.tsx:72-73 | For a name ending in `-router`, with its first `-router` at index i, the derived name is `name[..i] + "-service" + name[i+7..]`. When that first occurrence is not the suffix, the result still ends in `-router`. |
| CombinedForm.RouterSuffixNoOverlap | frontend/src/components/CombinedRouterServiceForm.tsx:72-73 | Two occurrences of `-router` never overlap. |
| CombinedForm.CombinedFromForm | frontend/src/components/CombinedRouterServiceForm.tsx:95-138 | The names pass through unchanged and the router names the service field. Entry points are filtered. `tls` is exactly `TlsFromForm` of the switch and the resolver. `middlewares` is present exactly when the selection is non-empty, and is then the selection unfiltered. The load balancer is exactly `LoadBalancerFromForm` of the service fields. |
| CombinedForm.CombinedRouterMatchesRouterForm | frontend/src/components/CombinedRouterServiceForm.tsx:96-112 | With a selection free of empty names, the router equals what the router form builds from the same values. |
| CombinedForm.CombinedServiceMatchesServiceForm | frontend/src/components/CombinedRouterServiceForm.tsx:114-130 | The service always equals what the service form builds from the same values. |
| CombinedForm.CombinedStoresWhatFormBuilt | frontend/src/components/CombinedRouterServiceForm.tsx:99 | The handler's overwrite of the router's service does nothing for this form's payloads. The stored router and service are exactly the ones the form built. |
| MiddlewaresPage.KindOf | frontend/src/pages/Middlewares.tsx:68-74 | A middleware is shown as unknown exactly when no variant is populated, and as errors exactly when `errors` is present. |
| MiddlewaresPage.MiddlewareTypeLabel | frontend/src/pages/Middlewares.tsx:68-74 | The label is one of the five names. It is `Unknown` exactly when no variant is populated, and `Error Pages` exactly when `errors` is present. |
| MiddlewaresPage.TypeTagColor | frontend/src/pages/Middlewares.tsx:94-100 | The colour is one of four tags. It is `tag-blue` exactly when `errors` is present or no variant is. |
| MiddlewaresPage.MiddlewareDescription | frontend/src/pages/Middlewares.tsx:76-92 | The description is never empty, and is the generic text when no variant is populated. The lemmas below characterise each branch. |
| MiddlewaresPage.LabelAndColorAgree | frontend/src/pages/Middlewares.tsx:68-100 | The label and the colour come from the same branch, in priority errors, rate limit, headers, redirect. The label identifies the kind; the colour does too, except that unknown shares `tag-blue` with errors. |
| MiddlewaresPage.LabelIdentifiesKind | frontend/src/pages/Middlewares.tsx:68-74 | Two middlewares get the same label exactly when they are shown as the same kind. |
| MiddlewaresPage.LabelMatchesFormType | frontend/src/pages/Middlewares.tsx:68-74 | The page labels a middleware with the variant the edit form opens on, and `Unknown` exactly when the form opens on none. |
| MiddlewaresPage.Join | frontend/src/pages/Middlewares.tsx:78 | `join` of no elements is empty; otherwise the result opens with the first element and closes with the last. |
| MiddlewaresPage.JoinLength | frontend/src/pages/Middlewares.tsx:78 | A join holds every element and one separator between each two. |
| MiddlewaresPage.JoinAppend | frontend/src/pages/Middlewares.tsx:78 | Joining two non-empty lists puts one separator between the parts. |
| MiddlewaresPage.NatDigits | frontend/src/pages/Middlewares.tsx:81 | A natural number is shown as decimal digits without leading zeros. |
| MiddlewaresPage.Decimal | frontend/src/pages/Middlewares.tsx:81 | An integer is shown with a leading `-` exactly when it is negative. |
| MiddlewaresPage.DecimalRoundTrip | frontend/src/pages/Middlewares.tsx:81 | The number shown reads back as the number stored. |
| MiddlewaresPage.KeyCount | frontend/src/pages/Middlewares.tsx:84-85 | `Object.keys(record).length` is 0 for an absent record, never exceeds the number of entries, and equals it when each key is kept once. |
| MiddlewaresPage.KeySetBound | frontend/src/pages/Middlewares.tsx:84-85 | A record has at most as many distinct keys as entries. |
| MiddlewaresPage.ErrorsText | frontend/src/pages/Middlewares.tsx:78 | The errors template opens with `Error handling for status codes: `. Its length is the heading's plus the codes' plus two characters between each two codes. |
| MiddlewaresPage.RateLimitText | frontend/src/pages/Middlewares.tsx:81 | The rate-limit template opens with `Rate limit: ` and closes with `)`. |
| MiddlewaresPage.HeadersText | frontend/src/pages/Middlewares.tsx:84-86 | The headers template opens with `Custom headers: ` and closes with ` response`. |
| MiddlewaresPage.RedirectText | frontend/src/pages/Middlewares.tsx:89 | The redirect template opens with `Redirect (permanent): ` for a permanent redirect and `Redirect (temporary): ` otherwise, and closes with the replacement. |
| MiddlewaresPage.KeyCountOfDistinct | frontend/src/pages/Middlewares.tsx:84-85 | A record that keeps each key once has as many keys as entries. |
| MiddlewaresPage.ErrorsDescription | frontend/src/pages/Middlewares.tsx:77-79 | The errors description is its heading followed by the status codes joined with `", "`. |
| MiddlewaresPage.HeadersDescription | frontend/src/pages/Middlewares.tsx:83-87 | The headers description reports the two records' key counts, 0 for an absent record, which are the entry counts of records built by the form. |
| MiddlewaresPage.RateLimitDescription | frontend/src/pages/Middlewares.tsx:80-82 | The rate-limit description shows the average and the burst, each reading back as the stored value. |
| MiddlewaresPage.RedirectDescribesMode | frontend/src/pages/Middlewares.tsx:88-90 | The redirect description opens with `Redirect (permanent): ` exactly for a permanent redirect, and with `Redirect (temporary): ` otherwise. |
| MiddlewaresPage.DescriptionSignature | frontend/src/pages/Middlewares.tsx:76-92 | The first, third and eighth characters of a description tell which branch produced it. |
| MiddlewaresPage.DescriptionIdentifiesKind | frontend/src/pages/Middlewares.tsx:76-92 | Middlewares shown as different kinds get different descriptions. |

## Left out

- YAML text, `fs` calls, console logging. YAML is a perfect round trip of documents. Reading, writing and directory creation are operations on the file-system object, and failures are the locations in `faulty`.
- Partial writes. A failing write is modelled as leaving the file as it was.
- ConfigStore.FileSystem.WriteYaml: a write succeeds whenever its path is not in `faulty`, whatever is at the parent path. When `CONFIG_PATH` names an existing regular file, `ensureConfigDir` skips `mkdir` and every split write fails (`ENOTDIR`), so the split fails. The model shows that failure only when the split paths are in `faulty`.
- `path.join` normalisation. Split paths are `configPath + "/" + name`.
- Concurrency between requests. Every method runs to completion.
- Storage-mode detection and loading from the split files. The code has neither.
- Schema validation on the combined route. The validator's verdict is a parameter (`validationError`). `backend/src/index.ts` never mounts the combined route, so it cannot be reached at runtime; the handler body is modelled anyway.
- The route handlers in `backend/src/routes/` other than the combined one are not part of this model. They wrap the modelled `ConfigService` calls with request validation and fixed 400/404/500 messages. For example, `POST /:name` and `DELETE /:name` in `routers.ts` call `saveRouter` and `deleteRouter`, and `POST /split` in `config.ts` calls `loadFullConfig` and then `splitConfigIntoFiles`.
- React rendering and hooks: `useForm`, `useFieldArray`, `watch` and the field-level `required`/`pattern`/`min` rules. Field-array rows are plain `string`, `Server` and `KeyValue` values.
- MiddlewareForm.ApplyPatch: `reset` with a partial record is modelled as overlaying the patch on an arbitrary previous form state. So the round trips are proved for every such state. What the form holds in the fields the patch leaves out is not pinned down.
- MiddlewareForm.MiddlewareRoundTrip: requires header records that keep each key once, as every JavaScript object does. Records in the model are entry lists, so this is stated explicitly.
- Numbers are unbounded integers. Floating-point rate limits, `NaN`, and JavaScript's rounding of integers above 2^53 are not modelled.
- MiddlewaresPage.Decimal: prints every integer in plain decimal. JavaScript prints a number of magnitude 1e21 or more in exponent form (`1e+21`). So `Decimal`, `DecimalRoundTrip` and `RateLimitDescription` match the page only below that magnitude.
- ConfigStore.SetRouter: binds every name, including `__proto__`. In JavaScript, `section["__proto__"] = entity` sets the section's prototype and adds no key, and `YAML.stringify` writes only own keys. So for that name the source reports success and stores nothing, while the model stores the entity. The same holds for `SaveRouter`, which is built on it. A name reaches it from the URL.
- ConfigStore.SetService: binds `__proto__` like any other name, where the source stores nothing, as for `SetRouter`. This also affects `SaveService`.
- ConfigStore.SetMiddleware: binds `__proto__` like any other name, where the source stores nothing, as for `SetRouter`. This also affects `SaveMiddleware`.
- CombinedRoute.UpsertRouterService: binds a router or service named `__proto__`, where `combined.ts` stores nothing for it, as for `SetRouter`. This also affects `CreateRouterService`.
- ConfigStore.FileSystem.MakeDirectory: adds only the given path. `mkdirSync(path, { recursive: true })` also creates every missing parent directory. Parents are not modelled, because directories matter here only as the config directory that the split writes into.
- FormValues.Put: adds an entry for every key. JavaScript's `obj[key] = value` with the key `__proto__` sets the prototype and adds no entry. So a header row named `__proto__` is recorded by the model and dropped by the page.
- JavaScript orders integer-like object keys before other keys. The model keeps records in insertion order.
- MiddlewaresPage.RedirectDescribesMode: states the prefix rather than "contains `(permanent)`". The regex or the replacement may themselves contain either word.
- The middleware list fetch in the combined form, and the HTTP client in `frontend/src/services/api.ts`, are not part of this model.
