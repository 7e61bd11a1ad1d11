# ginrpc core in Dafny

ginrpc turns a service object into HTTP actions on a gin router. The service object is a pointer to a Go struct, and each of its exported methods can become an action. Each method is inspected once, at bind time:

- Its name gives the HTTP verb. A `Get` prefix gives GET, an `Options` prefix gives OPTIONS, and anything else is POST.
- The lower-cased type name gives the resource segment.
- The lower-cased rest of the name gives the action segment.
- Its results must be a response, or a struct result followed by a response.
- Its inputs after the receiver are sorted into header, query and body slots.

At request time the generated handler does the following:

1. It builds the argument list for `reflect.Value.Call`. The request's header goes into the header slot. The query string is decoded into the query object and the request body into the body object. A decoding failure refuses the request with 400.
2. It calls the method.
3. It hands the method's response to a configured hook, or to the default writers. The default writers apply the response's header and send the response's code as the status. With data (two results, or an error) they also render a JSON body. On success with one result no body is written: the handler sends the status and aborts.

The server also registers an `exports` route that lists the bound paths. The package also has a small handler that redirects HTTP to HTTPS.

The model is split into modules:

- `Common` (common.dfy): Go errors and wrapping, the invalid-instance sentinel, and `internalError`.
- `Payload` (payload.dfy): the `Response` contract and `DefaultResponse`.
- `GoStrings` (gostrings.dfy): `HasPrefix`, `HasSuffix`, `ToLower` and `Join`, for ASCII strings.
- `Naming` (naming.dfy): `parseMethodName`.
- `Signature` (signature.dfy): the signature checks `checkOutParams`, `checkResultParam`, `initInParams` and `isHttpHeaderSignature`. Go types are described as data.
- `Binding` (binding.dfy): `Bind`, `relativePath`, `makeRoutes` with the exports list, and the interceptor lists. These are on a `Server` class whose fields the methods update. `makeRoutes` registers onto a `Router` class, which stands for gin's engine and keeps the routes in registration order.
- `Response` (response.dfy): what a handler writes through a gin context (`Context` class), plus `setHeader`, `defaultSuccessResponse` and `defaultErrResponse`.
- `Dispatch` (dispatch.dfy): the handler made by `assignHandler`. A `Handler` class holds the query and body objects that every request decodes onto. Its methods assemble the arguments into an `array` and are proved against staged specification functions.
- `Redirect` (redirect.dfy): `tlsRedirect`, covering the port normalisation and the rewriting of the request URL.

Some things the source gets from reflection or from libraries become inputs of the model:

- Whether a type implements `payload.Response` is a probe function.
- What the query and body decoders make of a request is a `Decoding` value.
- What the called method returns is an `invoke` function.
- The results of `SplitHostPort` and `ParseRequestURI` are parameters.

Map iteration order is unspecified in Go. Where the source ranges over a map (the actions map in `Bind`, the header in `setHeader`), the loops pick keys with `:|`. The contracts state what holds for every order.

gin and net/http add rules of their own, and the model states them:

- gin keeps its default 200 when asked for a code ≤ 0. The zero-value `DefaultResponse` carries code 0, so it goes out as 200.
- net/http panics on a status outside 100–999. The handler's recover catches the panic, which the model reports as a `StatusOutOfRange` panic.
- gin renders no body for a 1xx, 204 or 304 code.
- gin's JSON render adds `Content-Type: application/json; charset=utf-8` to the header map when it has no Content-Type yet, on both the body and the no-body branch.
- net/http sends the header as it stands when the status goes out, and later header writes change only the map. The model keeps that copy as `sentHeader`. On the default writers' paths the content type is added before the status, so the client receives it.
- `ctx.BindQuery` and `ctx.Bind` answer a decoding error themselves: gin's `MustBindWith` calls `AbortWithError(400, err)`, which sends the 400 and aborts. The handler's own `ctx.Abort()` and `ctx.JSON(400, …)` come after, so on these refusals the JSON content type reaches only the header map.
- gin's router serves a relative path joined onto its base "/".
- gin's router panics when a verb and a path are registered twice. `makeRoutes` runs in `Start`, which has no recover, so start-up fails.

`Bind` can produce such a repeated pair. `parseMethodName` lower-cases the action, so the exported methods `GetInfo` and `Getinfo` of one type both become GET prefix/userservice/info (`Binding.GetInfoCollides`). Two bound types whose names agree up to case collide the same way.

In a few places the repository's own text points another way than the code goes. The model follows the code:

- **Version segment.** `common.go:34-36` declares a `ResourceVersion` interface, which the mock service implements (`mock/services/inventory/handler.go:49`). `server_test.go:32-36` requests `/api/v1/inventory/...` URLs, while the default prefix is `/api/v0` (`config.go:23`). `Bind` never asks for a version, so paths are prefix/resource/action.
- **First input.** The mock handlers take `ctx context.Context` as their first input (`mock/services/inventory/handler.go:61`). After the receiver, `initInParams` accepts only structs and `http.Header`, so an interface input disqualifies the method.
- **Duplicate slots.** Every signature in the list in `Bind`'s comment (`server.go:157-168`) has at most one header, one query and one content parameter. `initInParams` does not enforce this: when two inputs compete for a slot, the later one overwrites the earlier (see Findings).

## Model

| member | source | states |
|---|---|---|
| Common.Error.Cause | server.go:138 | github.com/pkg/errors' Cause unwraps the error `Wrapf` builds back to its root error, and a root error is its own cause |
| Common.WrapKeepsCause | server.go:138 | wrapping with a message keeps the cause, and keeps the wrapped text as a suffix of the new text |
| Common.InternalErrorContract | common.go:18-32 | every internal error reports code 500 and the message "unknown server error"; its error text is exactly the wrapped error's text |
| Payload.GettersRoundTrip | payload/payload.go:11-27 | the three getters return the three fields unchanged; a response rebuilt from its getters is the same response, and two responses are equal iff their getters agree |
| Naming.ParseMethodName | utils.go:75-89 | the resource is the lower-cased type name; the action is as long as the name minus the verb's prefix |
| Naming.VerbSelection | utils.go:76-88 | GET iff the name starts with "Get"; OPTIONS iff it does not but starts with "Options"; POST iff neither |
| Naming.ActionIsRestOfName | utils.go:78-88 | the name starts with the chosen verb's prefix, and the action is the lower-cased rest of the name |
| Naming.ActionReconstructsName | utils.go:75-89 | the lower-cased prefix followed by the action gives back the whole lower-cased name |
| Naming.ResourceIndependentOfMethod | utils.go:79-88 | the resource segment does not depend on the method name |
| Naming.IsExported | server.go:146 | the export test; that only exported methods become actions is stated by Binding.ActionOfSpec and BoundMethodsQualify |
| Signature.IsHttpHeaderSignature | server.go:304-310 | true exactly for the map type named Header of package net/http |
| Signature.CheckResultParam | server.go:251-263 | a first result is accepted iff it is a struct or a pointer to a struct |
| Signature.CheckOutParams | server.go:224-249 | accepted iff there are 1 or 2 results, the last is an interface or implements Response, and with 2 results the first passes checkResultParam; then the count is the number of results, and otherwise 0 |
| Signature.InitInParams | server.go:265-302 | the loop computes exactly the slot assignment InParamSlots |
| Signature.InParamSlots | server.go:265-302 | the slot fold; what it accepts and which input each slot holds is stated by InParamSlotsSpec and QueryStructIsQuerySlot |
| Signature.InParamSlotsSpec | server.go:265-302 | a method is accepted iff it has at most 4 inputs and every input after the receiver is a struct or http.Header after one pointer unwrap; then each slot holds the last input of its kind, with its position, pointer-ness and record type |
| Signature.QueryStructIsQuerySlot | server.go:288-292 | a struct whose name ends in "Query" always fills the query slot, never the body slot |
| Signature.StrictSlotsCover | server.go:285-298 | under the stricter classifier each input after the receiver owns exactly one slot, which points back at it, so there are as many slots as such inputs |
| Binding.BindError | server.go:136-139 | the error Bind returns has the invalid-instance sentinel as its cause and ends with its text |
| Binding.ActionOf | server.go:144-184 | one turn of the first loop; its properties are stated by ActionOfSpec |
| Binding.ActionTable | server.go:143-184 | the actions map; its keys, descriptors and size are stated by ActionTableSpec, BoundMethodsQualify, ActionTableSize and ActionTableHoldsEachMethod |
| Binding.ActionOfSpec | server.go:144-183 | a method becomes an action iff it is exported, its results pass checkOutParams and its inputs pass initInParams; its descriptor carries its name, verb, resource, action, 1 or 2 results and at most 4 inputs |
| Binding.ActionTableSpec | server.go:143-184 | every key of the actions map is the name of a qualifying method and maps to that method's descriptor; every qualifying method's name is a key |
| Binding.BoundMethodsQualify | server.go:144-183 | every action in the map is exported, keyed by its own name, routed under the lower-cased type name, with 1 or 2 results and at most 4 inputs |
| Binding.ActionTableSize | server.go:143-184 | with distinct method names the actions map has one entry per qualifying method |
| Binding.ActionTableHoldsEachMethod | server.go:175-182 | with distinct method names each qualifying method's own descriptor is in the map |
| Binding.CaseVariantsCollide | utils.go:75-89 | two exported methods "Get" + a and "Get" + b whose rests differ only in case both become actions, with distinct entries and the same verb and served path |
| Binding.GetInfoCollides | utils.go:75-89 | GetInfo and Getinfo on UserService give two entries with the same verb and served path |
| Binding.CaseVariantAction | server.go:144-183 | a receiver-only method "Get" + rest with an interface result is a GET action on the lower-cased rest |
| Binding.RelativePath | server.go:456-462 | prefix/resource/action when the prefix is non-empty, else resource/action |
| Binding.ExportsPath | server.go:209-212 | the exports route is the prefix followed by "/exports" |
| Binding.ServiceRoutes | server.go:204-207 | one route per service, in order, with its verb, path and handler |
| Binding.RoutePathLeadsWithSlash | server.go:206 | the path gin serves a route at starts with "/": the relative path itself when it has one, else "/" + the path |
| Binding.RegistrableMeansApart | server.go:204-214 | registering route by route succeeds iff no route shares its verb and served path with an already registered one or with another of the list |
| Binding.RegistrableExtends | server.go:206 | a route whose verb and path are free extends a registrable prefix of the list |
| Binding.ExportsRouteLast | server.go:214 | after the services' routes, the exports route is registered iff the whole list is registrable; a refusal leaves exactly the services' routes |
| Binding.ClashStops | server.go:206 | a route whose verb and path are already registered makes the whole list unregistrable |
| Binding.LastRoute | server.go:214 | after a registrable list one more route can be registered iff its verb and path are free |
| Binding.RegistrableServicesDistinct | server.go:204-207 | services that can all be registered have pairwise different verb and served path |
| Binding.ExportedPaths | server.go:216-218 | every service's path, in order |
| Binding.Blanks | server.go:215 | make([]string, n): n empty strings; what this does to the exports list is stated by Server.ServeExports and ExportsListPadded |
| Binding.ExportsListPadded | server.go:214-218 | the list the exports handler builds has "" in each of its first n entries and the i-th service's path at n + i, so wherever a path belongs it holds "" and the list is not the list of paths |
| Binding.EmptyPrefixPathHasNoLeadingSlash | server.go:456-462 | with an empty prefix an action path does not start with "/", while the exports path does; gin serves the action at "/" + path, so the exports list shows a path other than the one served |
| Binding.IntendedRelativePath | server.go:456-462 | the corrected path always starts with prefix + "/"; it equals relativePath for a non-empty prefix and adds a leading "/" otherwise |
| Binding.IntendedPathsLeadWithSlash | server.go:456-462 | with the corrected paths every route starts with "/" when the prefix is empty or starts with "/", and gin serves each action at exactly the path the exports list shows |
| Binding.Router.constructor | server.go:24 | a new gin engine has no routes |
| Binding.Server.constructor | server.go:18-37 | a new server has the configured prefix, empty interceptor and service lists, and a fresh engine with no routes |
| Binding.Server.BindPreInterceptor | server.go:57-59 | appends the handlers to the pre-interceptors and changes nothing else |
| Binding.Server.BindPostInterceptor | server.go:61-63 | appends the handlers to the post-interceptors and changes nothing else |
| Binding.Server.CollectActions | server.go:143-184 | the first loop of Bind builds exactly the actions map ActionTable, keyed by method name |
| Binding.EntriesInMapOrder | server.go:186-194 | whatever the map order, the second loop of Bind yields one entry per action, pairwise distinct, exactly the entries of the actions map |
| Binding.Server.Bind | server.go:131-201 | an error iff the service is not a non-nil pointer to a struct, with the sentinel as cause and the services unchanged; otherwise the old services stay as a prefix and one pairwise-distinct entry is appended per action, exactly the entries of the actions map, as many as the qualifying methods when names are distinct |
| Binding.Router.Handle | server.go:206 | a route is added iff its verb and path are free; otherwise nothing changes (gin panics) |
| Binding.Server.RegisterServices | server.go:204-207 | the services' routes are registered in order, all of them iff they are registrable, else exactly those before the first clash |
| Binding.Server.MakeRoutes | server.go:203-214 | registers one route per service in order, then GET on the exports path, and succeeds iff no verb and path come up twice; otherwise gin panics at the first repeat, with only the routes before it registered; the services stay as they are |
| Binding.Server.ServeExports | server.go:214-221 | the list is n empty strings followed by every service's path, 2n entries in all |
| Response.HeaderOne | server.go:436 | ctx.Header with an empty value deletes the key, and with any other value sets it; the other keys keep their values |
| Response.HeaderOneOverwrites | server.go:435-437 | a second write of a key forgets the first |
| Response.LastValueWins | server.go:435-437 | of the values written for one key only the last counts |
| Response.HeaderApply | server.go:432-440 | after setHeader a key with values holds its last value, or is gone if that value is empty; all other keys are untouched |
| Response.ApplyOneMoreKey | server.go:434-438 | one turn of setHeader's outer loop moves one key into the applied part of the header, whatever the order |
| Response.StatusWrite | server.go:425 | only the first status is sent, with the header as it stands then, and a code ≤ 0 is sent as 200; how the context uses it, with net/http's refusal, is stated by Context.AbortWithStatus, Context.JSON and Context.WriteStatus |
| Response.JsonHeader | server.go:429 | the JSON render's content type is added only when the header has none, and every other key is kept |
| Response.SuccessWrites | server.go:419-430 | headers applied, plus the JSON content type when there is data; a status net/http refuses stops it there; otherwise the first status stays or the code (200 for a code ≤ 0) is sent; without data the body is untouched and the context aborted; with data the body is {"result": data} unless the code allows no body |
| Response.ErrorWrites | server.go:442-454 | headers applied, plus the JSON content type; a status net/http refuses stops it there; otherwise the status is sent as on success, and the body, unless the code allows none, has the error text under "errMsg" and the data under "result" when there is any |
| Response.Context.constructor | server.go:313 | a fresh context has nothing written |
| Response.Context.Header | server.go:436 | the header becomes HeaderOne of the old one and nothing else changes |
| Response.Context.HeaderEach | server.go:435-437 | writing every value of one key leaves the header as the values written one after another make it |
| Response.Context.Abort | server.go:356 | only the abort flag is set |
| Response.Context.WriteStatus | server.go:425-429 | a status already sent stays and nothing panics; otherwise net/http refuses codes outside 100-999 after gin maps a code ≤ 0 to 200, and an accepted code is sent |
| Response.Context.AbortWithStatus | server.go:425 | reports whether sending the status panics; if it does nothing changes, otherwise the status is sent (first one wins) and the context is aborted |
| Response.Context.JSON | server.go:429 | the JSON content type is added when absent; it reports whether sending the status panics; if it does nothing else changes, otherwise the status is sent (first one wins) and the body is replaced unless the code allows no body |
| Response.Context.Delegate | server.go:403-413 | records the hook call and nothing else |
| Response.Context.SetHeader | server.go:432-440 | for any map order the header ends up as HeaderApply of the old header, and nothing else changes |
| Response.DefaultSuccessResponse | server.go:419-430 | what it writes to the context is exactly SuccessWrites, and it panics exactly when the status is one net/http refuses |
| Response.DefaultErrResponse | server.go:442-454 | what it writes to the context is exactly ErrorWrites, and it panics exactly when the status is one net/http refuses |
| Dispatch.DecodeInto | server.go:354 | decoding onto an object overwrites the fields the request carries and keeps every other field |
| Dispatch.DataOf | server.go:393-399 | the hand-off of the first result to the writers; what they make of it is stated by DefaultSuccessReply and DefaultErrorReply |
| Dispatch.ReplyWrites | server.go:400-415 | the result normalisation; its cases are stated by DefaultSuccessReply, DefaultErrorReply and HookTakesOver |
| Dispatch.ServeSpec | server.go:312-417 | one request; its properties are stated by QueryDecodeFailureRefuses, BodyDecodeFailureRefuses, PanicWritesNothing and InvokedMeansAccepted |
| Dispatch.AssembleSpec | server.go:334-381 | the argument assembly; when it reaches the call and what it builds is stated by AssembledForm, AssembledLength and ReceiverFirst |
| Dispatch.Handler.constructor | server.go:288-294 | a handler starts with empty query and body objects and its descriptor |
| Dispatch.Handler.AssembleArgs | server.go:334-381 | the argument array, refusal or index panic, and the new query and body objects, are exactly AssembleSpec |
| Dispatch.Handler.BindQueryArg | server.go:353-366 | from the query on, the outcome and objects are QueryStage |
| Dispatch.Handler.BindBodyArg | server.go:368-381 | from the body on, the outcome and objects are BodyStage |
| Dispatch.Handler.Serve | server.go:312-417 | one request: the outcome, what is written to the context and the new objects are exactly ServeSpec |
| Dispatch.Reply | server.go:400-415 | writes exactly ReplyWrites, and panics exactly when a default writer runs on a status net/http refuses |
| Dispatch.AssembledForm | server.go:334-381 | the assembly reaches the call iff every slot index lies inside the list and every decoded slot decodes; the list then holds, at each position, what the last write there put |
| Dispatch.AssembledLength | server.go:347 | an assembled list has paramsLen values |
| Dispatch.QueryDecodeFailureRefuses | server.go:353-359 | a query that does not decode aborts with 400 and {}, before the method is called. The 400 and the header go out with the binder's abort, as the header was before, and the JSON content type is added to the header map only. Hooks and the objects stay as they were |
| Dispatch.BodyDecodeFailureRefuses | server.go:368-374 | a body that does not decode aborts with 400 and the decoder's error text under "errMsg", before the method is called. The 400 and the header go out with the binder's abort, and the JSON content type is added to the header map only |
| Dispatch.AssembledShape | server.go:334-348 | on slots initInParams produced, an assembled list has the receiver first and one value per slot |
| Dispatch.ReceiverFirst | server.go:347-348 | when no slot sits at position 0 the receiver is the first argument |
| Dispatch.PanicWritesNothing | server.go:314-326 | a panic before the method returns leaves the response as it was; a status net/http refuses leaves no status, no sent header and no body, only the applied header map |
| Dispatch.InvokedMeansAccepted | server.go:384-415 | the method runs only with an argument list reflect accepts, and its response is then normalised by the hooks or the default writers |
| Dispatch.DefaultSuccessReply | server.go:402-408 | without hooks a success applies the header, plus the JSON content type with two results, and panics iff the code is 1-99 or above 999; otherwise it sends the code, or 200 for a code ≤ 0, with the header as applied, and then {"result": first} with two results (none for 1xx, 204, 304), or aborts without a body with one |
| Dispatch.DefaultErrorReply | server.go:411-415 | without hooks an error applies the header plus the JSON content type and panics iff the code is 1-99 or above 999; otherwise it sends the code, or 200 for a code ≤ 0, with the header as applied and a body iff the code allows one, holding the error text under "errMsg" and a "result" iff there are two results |
| Dispatch.ZeroCodeSendsOK | server.go:419-430 | the zero-value response with data goes out as 200 with {"result": data} as JSON |
| Dispatch.HookTakesOver | server.go:402-414 | a configured hook gets the response and the data, and nothing else is written |
| Dispatch.StrictSlotFacts | server.go:285-298 | under the stricter classifier the list length equals the input count and each slot sits on an input of its kind |
| Dispatch.StrictSignatureCallSucceeds | server.go:334-384 | under the stricter classifier a request that decodes always builds an argument list reflect accepts, carrying the decoded objects |
| Dispatch.StrictArgsFit | server.go:347-384 | under the stricter classifier every argument fits its input's type |
| Dispatch.ArgFitsAt | server.go:349-381 | an argument fits its input when the slot of the input's kind points at it and each slot describes its input |
| Dispatch.DuplicateBodyPanics | server.go:293-298 | two body structs are accepted, the second overwriting the first, and every decoding request panics on the index |
| Dispatch.PointerHeaderMismatch | server.go:275-287 | a *http.Header input is accepted, but the handler passes the map itself and reflect refuses the call |
| Dispatch.StaleQueryField | server.go:288-292 | a field sent in one request is still set in the next request that omits it |
| Dispatch.FreshAssemblyForgetsEarlierRequests | server.go:353-381 | with a fresh object per request each decoded argument is exactly what the current request carries |
| Redirect.NormalizePort | utils.go:20-25 | the port normalisation; when it leaves no port is stated as an iff by NoPortCases |
| Redirect.NoPortCases | utils.go:20-25 | the target has no port iff the port is ":443", ":https", empty or a bare colon |
| Redirect.JoinHostPort | utils.go:40 | net.JoinHostPort, bracketing a host with a colon; that the port comes back unchanged is stated by PortRoundTrip |
| Redirect.PortRoundTrip | utils.go:22-24 | a port given with a colon reappears unchanged in the target host |
| Redirect.DefaultPortLeavesHost | utils.go:20-21 | the default HTTPS port leaves the host without a port |
| Redirect.TargetHost | utils.go:29-41 | the target host; its cases are stated by PortRoundTrip and DefaultPortLeavesHost |
| Redirect.HostOf | utils.go:29-33 | the host before the port; its use is stated by PortRoundTrip and DefaultPortLeavesHost |
| Redirect.Location | utils.go:49 | the location starts with scheme://host/path |
| Redirect.Url.constructor | utils.go:34 | the parsed request URI keeps its path and query |
| Redirect.RedirectHandler.constructor | utils.go:19-25 | the handler keeps NormalizePort of the configured port |
| Redirect.RedirectHandler.ServeHTTP | utils.go:27-50 | an unparsable URI dereferences nil; otherwise the target becomes https on the rewritten host, with a non-empty path and the query untouched, and the client is sent there with 307 |
| Redirect.RedirectIsHttps | utils.go:35-49 | every redirect location is an https URL with a non-empty path |

## Findings

| source | as written | input that shows it | evidently intended | confidence | as-written member | corrected member |
|---|---|---|---|---|---|---|
| server.go:285-298 | each input overwrites the slot of its kind, so two body structs leave one slot, and paramsLen counts one slot while the second body's index is 2 | `func (s *UserService) Save(a CreateForm, b UpdateForm) Response`: paramsLen is 2, and writing inParams[2] goes out of range on every request that decodes | a method with two inputs for one slot is not an action | not executed | Dispatch.DuplicateBodyPanics | Dispatch.StrictSignatureCallSucceeds |
| server.go:275-287 | a `*http.Header` input is unwrapped and accepted as the header slot, but the handler passes the `http.Header` value itself | `func (s *UserService) Info(h *http.Header) Response`: Call panics with a type mismatch on every request | only a plain `http.Header` input is a header slot | not executed | Dispatch.PointerHeaderMismatch | Dispatch.StrictArgsFit |
| server.go:215-217 | `make([]string, len(g.services))` followed by `append` | one bound service: the exports list is `["", "/api/v0/userservice/info"]` | `make([]string, 0, len(g.services))`: the list holds exactly the paths | not executed | Binding.ExportsListPadded | Binding.ExportedPaths |
| server.go:456-462 | with an empty UrlPrefix the path is `resource/action`, with no leading "/" | UrlPrefix "" and `UserService.GetInfo`: gin serves the action at `/userservice/info`, but the exports list shows `userservice/info`, while the exports route itself is `/exports` | every action path starts with "/", so the exports list shows the paths that are served | not executed | Binding.EmptyPrefixPathHasNoLeadingSlash | Binding.IntendedPathsLeadWithSlash |
| server.go:289, server.go:294, server.go:353-381 | the query and body objects are made once at bind time, and every request decodes onto the same object | a query request with `page=3`, then one with no parameters: the second call still receives page 3 | a fresh object for each request | not executed | Dispatch.StaleQueryField | Dispatch.FreshAssemblyForgetsEarlierRequests |

## Left out

- `New`, `Start`, `listenAndServe` and `Stop` are left out: they configure and run net/http servers, watch signals and shut down.
- `makeTls` is left out: it is certificate loading and file I/O.
- The middleware and mock packages are left out: they are not part of the binding and dispatch core.
- Reflection is left out. Method sets, types and `Call` are data: Go types are a `GoType` datatype, and whether a type implements `Response` is a probe parameter.
- The called method is left out. It is an `invoke` parameter, so its behaviour and panics inside it are not modelled.
- gin's decoders are left out. Their outcome is a `Decoding` parameter, and a decoding that fails is taken to leave the target object unchanged. A partial write before the failure is not modelled.
- Dispatch.QueryDecodeFailureRefuses and Dispatch.BodyDecodeFailureRefuses leave out two things. The first is the entry in `c.Errors` that gin's binder records, of type `ErrorTypeBind` (the logging middleware reads it). The second is net/http's content sniffing: with no Content-Type in the sent header, the client sees `text/plain; charset=utf-8` for the JSON body.
- The query and body objects are value maps of fields. Aliasing through a pointer argument that the method mutates is not modelled.
- Requests that run at the same time and share those objects are not modelled (a data race in the source).
- Configured hooks are left out. The model records only that a hook was called, with the response and the data; what a hook writes is application code.
- Panics are outcomes. A panic before the method returns writes nothing, and a refused status leaves only the applied header. The recovery's log line is not modelled, and neither is the 200 without a body that net/http then sends with the header set so far.
- Binding.Server.MakeRoutes compares paths after joining them onto "/", without the rest of `path.Clean` (repeated slashes, "." and ".." segments). It also leaves out gin's other registration panics, which come from wildcard and catch-all segments in a prefix.
- Response.Context.JSON assumes every body marshals. When `json.Marshal` fails, gin records the error in `c.Errors`, aborts and writes no body, and the status only goes out once the handler has returned; the model has no such path, since a result's JSON is an input.
- Response.Context.WriteStatus leaves out the 1xx codes that net/http sends as interim responses. It also leaves out gin's warning when a second status is written.
- Logging and timing in `Bind` and in the handler are left out.
- `Response.Context.Header` does not canonicalise header keys. It models the key exactly as given, unlike `http.Header.Set`.
- The exports route's response is not modelled as written. The model states the list it builds, not the 200 status and the `{"apis": ...}` wrapping.
- Redirect.Location leaves out what `url.URL.String` adds or escapes. It escapes the path. With a host, it puts a "/" before a path that lacks one: `ParseRequestURI("*")` gives the path `*`, so Go sends `https://host/*` where the model gives `https://host*`. It keeps a bare "?" when `ForceQuery` is set. The redirect response's body is left out too.
- `GoStrings.ToLower` covers ASCII letters only, with no Unicode case mapping. The same holds for `Naming.IsExported`'s upper-case test.
- The order in which `Bind` appends its entries follows Go's map order, which is unspecified. `Binding.Server.Bind` states the new entries as a set, with their count and pairwise distinctness, not as a sequence.
- Ordering of the pre- and post-interceptors around the routes in `Start` is not modelled. The interceptor lists are only appended to.
- `Response.DefaultErrResponse` requires an error to be set. That is the only way the handler calls it; with no error the source would dereference a nil error.
