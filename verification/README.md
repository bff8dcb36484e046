# Graph Explorer core, modelled in Dafny

Graph Explorer is a browser application for exploring property graphs (Gremlin,
openCypher) and RDF graphs (SPARQL), usually hosted on Amazon Neptune, through a
small proxy server. Most of the repository is React UI. This project models the
pure logic underneath it and proves what that logic promises:

- **Environment and URLs**: the environment defaults, trailing-slash stripping,
  the server and client URLs, the case-insensitive boolean strings, and the
  reload URL.
- **Connections**: the connection schema, migration of stored configurations,
  the connection form (its validation, the mapping in both directions, the save
  rule and the engine rule), the equality that decides whether the active
  connection changed, and the explorer chosen per engine.
- **Queries**: the SPARQL neighbour-count, one-hop and blank-node templates as
  sequences of lines, and the proxy route's endpoint URL, per-engine request
  options and status mapping.
- **Results**: flattening of Gremlin GraphSON 3.0 values with vertex and edge
  de-duplication and fragment vertices; grouping of SPARQL bindings into
  vertices and edges; `parseEdgeProperty`; `mapRawResultToVertex`.
- **State transitions**: the node and edge list writes (ID-set clean-up and
  schema type inference), the schema sync update, node expansion, the graph
  workspace layout toggles, the data explorer pagination and styling update,
  and the capped exponential retry backoff.

## How it is modelled

- **Stored data**: untyped stored data is the `JsValues.Js` datatype.
- **JavaScript `Map` and record order**: a JavaScript `Map`, or a record used as
  a dictionary, keeps insertion order. Both are `OrderedMaps.Entries`, an
  association list. Writing an existing key replaces its value in place;
  writing a new key appends it.
- **Numbers**: numbers are unbounded integers.
- **Optional values**: `undefined` and `null` are `Option.None`, and JavaScript
  truthiness is written out wherever the source relies on it.
- **Parameters**: the clock, URL parsing, `fetch`, and helpers whose source is
  not part of this model are function parameters of the operations that use
  them.
- **Errors**: an exception is an explicit outcome, either a `Result` failure or
  the `threw` flag of a graph write.
- **Defects**: where the code does something other than what it evidently
  means (see "Findings"), the operations follow the code as written. The
  corrected rule sits beside it, with its intended properties proved and a
  lemma relating the two.

Modules follow the source files: `Environment`, `BooleanString`, `Connection`,
`Constants`, `Migrate`, `Gremlin`, `SparqlTypes`, `SparqlNeighbors`,
`SparqlBlankNodes`, `SparqlTemplates`, `DatabaseRequests`, `DbRoute`,
`GraphState` (nodes.ts and edges.ts), `SchemaUpdate`, `ExpandNode`, `Retry`,
`CreateConnection`, `Layout` and `DataExplorer`. The helper modules are
`Wrappers`, `Strs`, `Seqs`, `OrderedMaps`, `Groups`, `JsValues` and `Schema`.

## Model

| member | source | states |
|---|---|---|
| BooleanString.Parse | packages/shared/src/BooleanStringSchema.ts:4-7 | A string is accepted exactly when its lower-case form is "true" or "false". The value is true exactly when that form is "true". |
| BooleanString.RoundTrip | packages/shared/src/BooleanStringSchema.ts:6-7 | Parsing the text of a boolean gives that boolean back. |
| BooleanString.CaseInsensitive | packages/shared/src/BooleanStringSchema.ts:3-7 | Two strings with the same lower-case form parse alike. |
| BooleanString.UpperCaseTrue | packages/shared/src/BooleanStringSchema.ts:3-7 | "TRUE" and "True" both parse to true. |
| Environment.StripTrailingSlash | packages/shared/src/env/EnvironmentValues.ts:17-23 | Exactly one trailing "/" is removed. Any other string is unchanged. |
| Environment.StripAppendedSlash | packages/shared/src/env/EnvironmentValues.ts:17-23 | Appending a "/" and then stripping gives the original string back. |
| Environment.LogLevelAccepted | packages/shared/src/env/EnvironmentValues.ts:11-13 | A log level is accepted exactly when it is one of the seven names. |
| Environment.Parse | packages/shared/src/env/EnvironmentValues.ts:5-15 | HOST defaults to localhost. Each port is the number its text coerces to, or 443 and 80 when absent. The base path loses one trailing slash. The HTTPS flag, log level and log style are the values read from their variables, or from "false", "debug" and "default" when absent. Validation succeeds exactly when every present flag, port, log level and log style is well formed. |
| Environment.ParseErrorsNamed | packages/shared/src/env/EnvironmentValues.ts:5-15 | A failure names exactly the malformed variables, in declaration order: the HTTPS flag, the HTTPS port, the HTTP port, the log level, the log style. |
| Environment.CoerceNumber | packages/shared/src/env/EnvironmentValues.ts:8-9 | The empty string coerces to 0. A string of decimal digits coerces to its value. Nothing else is accepted, and no result is negative. |
| Environment.CoercePortRoundTrip | packages/shared/src/env/EnvironmentValues.ts:8-9 | The decimal text of a port coerces back to that port. |
| Environment.PortOr | packages/shared/src/env/EnvironmentValues.ts:8-9 | An absent port takes its default. A present one is its coerced text. |
| Environment.ParseLogLevel | packages/shared/src/env/EnvironmentValues.ts:11-13 | An accepted log level is the level whose name is the input string. |
| Environment.ParseEmpty | packages/shared/src/env/EnvironmentValues.ts:5-15 | With nothing set, the defaults are localhost, ports 443 and 80, an empty base path, https off, log level debug and log style default. |
| Environment.ParseSlashBasePath | packages/shared/src/env/EnvironmentValues.test.ts:41-47 | A base path of "/" becomes the empty string. |
| Environment.ParseOverrides | packages/shared/src/env/EnvironmentValues.test.ts:16-31 | Provided fields override their defaults, and every other field keeps its default. |
| Environment.PortSuffix | packages/shared/src/env/extractUrl.ts:13-20 | The suffix is empty for https on 443 and for http on 80. Otherwise it is ":" followed by the active scheme's port. |
| Environment.ExtractServerUrl | packages/shared/src/env/extractUrl.ts:5-27 | The scheme is https exactly when https is enabled. The URL is scheme, "://", host, port suffix and base path. |
| Environment.ExtractClientUrl | packages/shared/src/env/extractUrl.ts:29-33 | The client URL is the server URL followed by "/explorer". |
| Environment.InactivePortIgnored | packages/shared/src/env/extractUrl.test.ts:26-32 | The port of the inactive scheme never changes the URL. |
| Environment.DefaultServerUrl | packages/shared/src/env/extractUrl.test.ts:4-8 | With all defaults the server URL is "http://localhost". |
| Connection.ParseEngine | packages/shared/src/types/index.ts:5 | Only gremlin, sparql and openCypher are accepted as engines. |
| Connection.EngineRoundTrip | packages/shared/src/types/index.ts:5 | The name of an engine parses back to that engine. |
| Connection.ParseServiceType | packages/shared/src/types/index.ts:9 | Only neptune-db and neptune-graph are accepted as service types. |
| Connection.ServiceTypeRoundTrip | packages/shared/src/types/index.ts:9 | The name of a service type parses back to it. |
| Connection.FieldErrors | packages/shared/src/types/index.ts:3-13 | There are no errors exactly when every field passes its check. A missing or invalid url is reported first. |
| Connection.ValidateDefaultConnection | packages/shared/src/types/index.ts:3-13 | Validation succeeds exactly for an object whose fields all pass. Otherwise it reports the field errors. The connection it yields satisfies the schema, and each of its nine fields is the one read from the object, with the engine and service type parsed from their strings. |
| Connection.Encode | packages/shared/src/types/index.ts:3-13 | The stored form of a connection is an object with exactly the nine schema properties. |
| Connection.ValidateEncode | packages/shared/src/types/index.ts:3-13 | A connection that satisfies the schema validates back to itself once stored. |
| Connection.EncodeReads | packages/shared/src/types/index.ts:17-59 | Every field of a stored connection reads back as the same value. |
| Connection.EncodeOmits | packages/shared/src/types/index.ts:17-59 | A field is missing from the stored form exactly when the connection leaves it unset. |
| Connection.ActiveConnectionEquals | packages/graph-explorer/src/core/connector.ts:27-45 | Identical values are equal. A present and an absent connection are unequal. Two present ones are equal exactly when the eight tracked fields agree. |
| Connection.ServiceTypeIgnored | packages/graph-explorer/src/core/connector.ts:34-44 | Changing only the service type never counts as a change. |
| Connection.EqualsEquivalence | packages/graph-explorer/src/core/connector.ts:27-45 | The equality is symmetric and transitive. |
| Connection.ExplorerFor | packages/graph-explorer/src/core/connector.ts:51-69 | There is an explorer exactly when there is a connection, and that explorer holds the connection. |
| Connection.ExplorerMatchesEngine | packages/graph-explorer/src/core/connector.ts:57-67 | The explorer's engine is the connection's engine. An absent engine counts as Gremlin. |
| Constants.Substring | packages/graph-explorer/src/utils/constants.ts:12-13 | A start at or below 0 gives the whole string. A start inside the string gives its suffix. A start past the end gives "". |
| Constants.ReloadUrlAsWritten | packages/graph-explorer/src/utils/constants.ts:12-13 | As written: "/" stays "/", any other base gains a "/", and the result ends in "/". |
| Constants.ReloadUrlAsWrittenEmpty | packages/graph-explorer/src/utils/constants.ts:12-13 | As written, an empty base gives "/". |
| Constants.ReloadUrlAsWrittenDoubleSlash | packages/graph-explorer/src/utils/constants.ts:12-13 | As written, "/app/" becomes "/app//". The corrected rule keeps "/app/". |
| Constants.ReloadUrl | packages/graph-explorer/src/utils/constants.ts:12-13 | Corrected: the result ends in "/". A base that already ends in "/" is kept, and any other base gains one "/". |
| Constants.ReloadUrlProperties | packages/graph-explorer/src/utils/constants.ts:12-13 | Corrected: applying the rule twice changes nothing, and it never creates a doubled slash. It agrees with the code as written except for bases other than "/" that end in "/". An empty base gives "/". |
| Migrate.ToQueryEngine | packages/graph-explorer/src/core/StateProvider/migrateConfiguration.ts:115-126 | Known engine names are kept. Any other value becomes gremlin. |
| Migrate.ToQueryEngineName | packages/graph-explorer/src/core/StateProvider/migrateConfiguration.ts:115-126 | Migrating an engine's own name gives that engine. |
| Migrate.ToServiceType | packages/graph-explorer/src/core/StateProvider/migrateConfiguration.ts:128-137 | Known service types are kept. Any other value becomes neptune-db. |
| Migrate.ToServiceTypeName | packages/graph-explorer/src/core/StateProvider/migrateConfiguration.ts:128-137 | Migrating a service type's own name gives that service type. |
| Migrate.DbUrl | packages/graph-explorer/src/core/StateProvider/migrateConfiguration.ts:57-80 | The database URL is graphDbUrl under a proxy, else url, else graphDbUrl, else absent. Each candidate counts only when it is a string. |
| Migrate.MigrateConnection | packages/graph-explorer/src/core/StateProvider/migrateConfiguration.ts:52-113 | Any non-null object migrates. The result is in migrated form: no url or proxyConnection, and awsAuthEnabled set (false by default). graphDbUrl holds the chosen database URL. The engine and service type are present exactly when stored as strings, and are converted from them. The region, timeout and limit are the stored values. |
| Migrate.MigrateEntry | packages/graph-explorer/src/core/StateProvider/migrateConfiguration.ts:26-50 | Exactly the non-null objects are kept. The id is the stored string id, otherwise the key. The label and file flag are carried over. The connection is the migrated stored connection when one is stored as an object, and absent otherwise. |
| Migrate.MigrateEntries | packages/graph-explorer/src/core/StateProvider/migrateConfiguration.ts:15-21 | The migrated map has distinct keys. |
| Migrate.MigrateConfiguration | packages/graph-explorer/src/core/StateProvider/migrateConfiguration.ts:3-24 | Anything but a Map gives an empty map. The result has distinct keys. |
| Migrate.MigrateEntriesKept | packages/graph-explorer/src/core/StateProvider/migrateConfiguration.ts:15-21 | With distinct input keys, the result is the kept entries in input order, each migrated under its own key. |
| Migrate.MigrateGet | packages/graph-explorer/src/core/StateProvider/migrateConfiguration.ts:15-32 | A key maps to its migrated entry. It is absent when the key was missing or its entry was dropped. |
| Migrate.MigrateConnectionIdempotent | packages/graph-explorer/src/core/StateProvider/migrateConfiguration.ts:82-111 | Migrating an already migrated connection changes nothing. |
| Migrate.MigrateProxyConnection | packages/graph-explorer/src/core/StateProvider/migrateConfiguration.test.ts:39-69 | A proxy connection keeps graphDbUrl and loses url and proxyConnection. awsAuthEnabled defaults to false. |
| Migrate.MigrateDirectConnection | packages/graph-explorer/src/core/StateProvider/migrateConfiguration.test.ts:71-100 | A direct connection's url moves to graphDbUrl, and url and proxyConnection are dropped. |
| Migrate.MigrateEntryIdempotent | packages/graph-explorer/src/core/StateProvider/migrateConfiguration.ts:34-48 | Migrating an already migrated entry changes nothing. |
| Migrate.MigrateConfigurationIdempotent | packages/graph-explorer/src/core/StateProvider/migrateConfiguration.test.ts:102-130 | Migrating an already migrated configuration map returns it unchanged. |
| Gremlin.MapAllConcat | packages/graph-explorer/src/connector/gremlin/mappers/mapResults.ts:75-77 | Mapping a concatenation of values gives the concatenation of the results. |
| Gremlin.MapValuesOdd | packages/graph-explorer/src/connector/gremlin/mappers/mapResults.ts:68-74 | A g:Map contributes exactly its odd-indexed entries, which are its values. |
| Gremlin.MapKeysIgnored | packages/graph-explorer/src/connector/gremlin/mappers/mapResults.ts:68-74 | The keys of a g:Map never affect the result. |
| Gremlin.CollectionShapes | packages/graph-explorer/src/connector/gremlin/mappers/mapResults.ts:66-80 | g:List and g:Set flatten their elements in order. A one-element list maps like its element, g:Path maps its objects, and an unknown type yields nothing. |
| Gremlin.ScalarsConcat | packages/graph-explorer/src/connector/gremlin/mappers/mapResults.ts:43-44 | The scalars of a concatenation are the scalars of its parts, in order. |
| Gremlin.ScalarsNotDeduplicated | packages/graph-explorer/src/connector/gremlin/mappers/mapResults.ts:43-44 | A list of two equal strings yields both scalars. |
| Gremlin.Ensure | packages/graph-explorer/src/connector/gremlin/mappers/mapResults.ts:25-37 | Afterwards the id is present. A vertex that was already there is kept, and a missing one becomes the fragment. |
| Gremlin.AddFragments | packages/graph-explorer/src/connector/gremlin/mappers/mapResults.ts:23-38 | The existing entries stay in place as a prefix, and fragments are only appended. |
| Gremlin.AddFragmentsFacts | packages/graph-explorer/src/connector/gremlin/mappers/mapResults.ts:23-38 | Every edge's source and target become present, and no key is lost. |
| Gremlin.AddFragmentsKeeps | packages/graph-explorer/src/connector/gremlin/mappers/mapResults.ts:23-38 | Adding fragments keeps the keys distinct and keeps each vertex under its own id. |
| Gremlin.EnsureFacts | packages/graph-explorer/src/connector/gremlin/mappers/mapResults.ts:25-37 | The id becomes present and no key is lost. Keys stay distinct, each under its vertex's id. |
| Gremlin.Assemble | packages/graph-explorer/src/connector/gremlin/mappers/mapResults.ts:40-46 | The edges are the edge map's values, in order, and the scalars are passed through. |
| Gremlin.MapResults | packages/graph-explorer/src/connector/gremlin/mappers/mapResults.ts:13-47 | The scalars are exactly the flattened scalars, in order. There are no more edges than mapped edges. |
| Gremlin.MapAnyValue | packages/graph-explorer/src/connector/gremlin/mappers/mapResults.ts:49-81 | A string, a boolean and a number each give one scalar. A vertex and an edge give one vertex or edge item. An unsupported value gives nothing. |
| Gremlin.MapResultsCoverage | packages/graph-explorer/src/connector/gremlin/mappers/mapResults.ts:13-47 | What comes out is what went in. Every vertex returned was read from the results, or is the fragment for an endpoint of a returned edge. Every edge returned was read. Every vertex and edge id read is returned. The last vertex or edge read under an id is the one returned. |
| Gremlin.MapResultsOrigin | packages/graph-explorer/src/connector/gremlin/mappers/mapResults.ts:16-41 | Over any flattened values, every vertex returned was read or is an endpoint fragment, and every edge returned was read. |
| Gremlin.MapResultsIds | packages/graph-explorer/src/connector/gremlin/mappers/mapResults.ts:16-41 | Every vertex id and edge id read appears in the result. |
| Gremlin.MapResultsLastWins | packages/graph-explorer/src/connector/gremlin/mappers/mapResults.ts:16-41 | The last vertex and the last edge read under each id are the ones returned. |
| Gremlin.LastVertexKept | packages/graph-explorer/src/connector/gremlin/mappers/mapResults.ts:16-38 | A vertex read last under its id survives de-duplication and the fragment loop. |
| Gremlin.LastEdgeKept | packages/graph-explorer/src/connector/gremlin/mappers/mapResults.ts:21 | An edge read last under its id survives de-duplication. |
| Gremlin.AssembleFacts | packages/graph-explorer/src/connector/gremlin/mappers/mapResults.ts:16-41 | Given de-duplicated maps, the vertex ids are distinct and so are the edge ids. Every edge's source and target are among the vertices. |
| Gremlin.MapResultsProperties | packages/graph-explorer/src/connector/gremlin/mappers/mapResults.ts:16-38 | Vertex ids are distinct and edge ids are distinct. Every edge's source and target are among the vertices. |
| Gremlin.DedupFacts | packages/graph-explorer/src/connector/gremlin/mappers/mapResults.ts:16-21 | Keying the vertices and the edges by id gives maps with distinct keys, each entry stored under its own id. |
| Gremlin.FragmentsNeverReplace | packages/graph-explorer/src/connector/gremlin/mappers/mapResults.ts:24-38 | A vertex found in the results is never replaced by a fragment. |
| Gremlin.ParseEdgeProperty | packages/graph-explorer/src/connector/gremlin/mappers/parseEdgeProperty.ts:3-12 | A string is returned unchanged. A boolean becomes "true" or "false", which parses back to it. A typed value gives its number. |
| Groups.GroupByGet | packages/graph-explorer/src/connector/sparql/queries/fetchBlankNodeNeighbors.ts:72-75 | A key's group holds exactly the items with that key, in order. A key with no items has no group. |
| Groups.GroupByDistinct | packages/graph-explorer/src/connector/sparql/queries/fetchBlankNodeNeighbors.ts:72-75 | The group keys are distinct. |
| Groups.GroupBySize | packages/graph-explorer/src/connector/sparql/queries/fetchBlankNodeNeighbors.ts:72-75 | The group sizes add up to the number of items. |
| Groups.GroupBy | packages/graph-explorer/src/connector/sparql/queries/fetchBlankNodeNeighbors.ts:72-75 | There are no more groups than items, and a non-empty list has at least one group. |
| SparqlTypes.MapRawResultToVertex | packages/graph-explorer/src/connector/sparql/mappers/mapRawResultToVertex.ts:5-20 | idType is "string". Without counts the count is 0 and there are no per-type counts; with counts, both are copied. |
| SparqlTypes.RawResultRoundTrip | packages/graph-explorer/src/connector/sparql/mappers/mapRawResultToVertex.ts:10-18 | The uri, class, blank flag and attributes read back from the vertex unchanged. |
| SparqlBlankNodes.GroupResult | packages/graph-explorer/src/connector/sparql/queries/fetchBlankNodeNeighbors.ts:79-90 | The class comes from the group's first binding. The vertex is blank exactly when that binding's subject is a bnode. |
| SparqlBlankNodes.VerticesOfGroups | packages/graph-explorer/src/connector/sparql/queries/fetchBlankNodeNeighbors.ts:79-94 | There is one vertex per group, in order, each built from its group. |
| SparqlBlankNodes.MapOneHop | packages/graph-explorer/src/connector/sparql/queries/fetchBlankNodeNeighbors.ts:71-95 | There are no more vertices than bindings. |
| SparqlBlankNodes.MapOneHopKeys | packages/graph-explorer/src/connector/sparql/queries/fetchBlankNodeNeighbors.ts:71-95 | There is one vertex per subject group, in order of first occurrence, and each vertex's id is its group's subject. |
| SparqlBlankNodes.MapOneHopIds | packages/graph-explorer/src/connector/sparql/queries/fetchBlankNodeNeighbors.ts:71-95 | The vertex ids are distinct and are exactly the subjects that occur. |
| SparqlBlankNodes.MapOneHopVertex | packages/graph-explorer/src/connector/sparql/queries/fetchBlankNodeNeighbors.ts:79-90 | Each vertex takes its class and blank flag from its subject's first binding. Its attributes come from all of that subject's bindings, and the last value wins. |
| SparqlBlankNodes.AttributeVarsDistinct | packages/graph-explorer/src/connector/sparql/queries/fetchBlankNodeNeighbors.ts:106-116 | The variables ?attributeValue1 to ?attributeValueN are pairwise distinct. |
| SparqlBlankNodes.MatchLines | packages/graph-explorer/src/connector/sparql/queries/fetchBlankNodeNeighbors.ts:108-111 | There is one match line per attribute, in attribute order, each with its own variable. |
| SparqlBlankNodes.FilterLines | packages/graph-explorer/src/connector/sparql/queries/fetchBlankNodeNeighbors.ts:112-114 | There is one FILTER line per attribute, in attribute order. |
| SparqlBlankNodes.FindBlankNodeTemplate | packages/graph-explorer/src/connector/sparql/queries/fetchBlankNodeNeighbors.ts:97-125 | There is no template exactly when the vertex has no attributes. Otherwise n attributes give n match lines and n filters. |
| SparqlBlankNodes.SubQueryFor | packages/graph-explorer/src/connector/sparql/queries/fetchBlankNodeNeighbors.ts:140-143 | A vertex without attributes uses the stored subquery. Otherwise the built template is used. |
| SparqlBlankNodes.CountsOf | packages/graph-explorer/src/connector/sparql/queries/fetchBlankNodeNeighbors.ts:172-178 | The counts have the groups' keys, and each count is its group's size. |
| SparqlBlankNodes.SumCountsOf | packages/graph-explorer/src/connector/sparql/queries/fetchBlankNodeNeighbors.ts:170-178 | The per-type counts add up to the number of vertices. |
| SparqlBlankNodes.FetchBlankNodeNeighbors | packages/graph-explorer/src/connector/sparql/queries/fetchBlankNodeNeighbors.ts:127-184 | An error response is a failure carrying its error. Otherwise the total equals the number of vertices, and the edges are passed through. |
| SparqlBlankNodes.BlankNeighborsCounts | packages/graph-explorer/src/connector/sparql/queries/fetchBlankNodeNeighbors.ts:152-178 | The per-type counts have distinct types and sum to the total. Every vertex comes from a binding whose bNode is the resource. |
| SparqlNeighbors.DraftsCharacterised | packages/graph-explorer/src/connector/sparql/queries/fetchNeighbors.ts:64-85 | There is a draft exactly for each mentioned subject. Its class is the last rdf:type value, and its attributes are the other predicates in order. |
| SparqlNeighbors.DraftStepGet | packages/graph-explorer/src/connector/sparql/queries/fetchNeighbors.ts:64-85 | rdf:type sets or overwrites the class. Any other predicate appends an attribute. Other drafts are untouched. |
| SparqlNeighbors.DraftStep | packages/graph-explorer/src/connector/sparql/queries/fetchNeighbors.ts:64-85 | After a triple its subject has a draft. The map grows by one exactly when the subject is new. |
| SparqlNeighbors.Drafts | packages/graph-explorer/src/connector/sparql/queries/fetchNeighbors.ts:64-85 | There are no more drafts than triples, and the last triple's subject has a draft. |
| SparqlNeighbors.DraftStepShape | packages/graph-explorer/src/connector/sparql/queries/fetchNeighbors.ts:64-85 | A step keeps every draft stored under its own uri. |
| SparqlNeighbors.DraftsKeysDistinct | packages/graph-explorer/src/connector/sparql/queries/fetchNeighbors.ts:64-85 | There is one draft per subject. |
| SparqlNeighbors.RawNode | packages/graph-explorer/src/connector/sparql/queries/fetchNeighbors.ts:91-105 | A draft without a class yields nothing. Otherwise the node keeps the draft's uri and class and is never blank. |
| SparqlNeighbors.VerticesOf | packages/graph-explorer/src/connector/sparql/queries/fetchNeighbors.ts:89-106 | There is at most one vertex per draft. None is blank, and each has idType "string". |
| SparqlNeighbors.VerticesOfDrafts | packages/graph-explorer/src/connector/sparql/queries/fetchNeighbors.ts:89-106 | There is a vertex with id u exactly when u's draft has a class, and that vertex is built from the draft. |
| SparqlNeighbors.MapIncoming | packages/graph-explorer/src/connector/sparql/queries/fetchNeighbors.ts:111-123 | There is one edge per binding, in order, built by the incoming edge mapper. |
| SparqlNeighbors.MapOutgoing | packages/graph-explorer/src/connector/sparql/queries/fetchNeighbors.ts:124-136 | There is one edge per binding, in order, built by the outgoing edge mapper. |
| SparqlNeighbors.IncomingTriples | packages/graph-explorer/src/connector/sparql/queries/fetchNeighbors.ts:111-112 | A binding gives an incoming edge exactly when its value is the resource. |
| SparqlNeighbors.OutgoingTriples | packages/graph-explorer/src/connector/sparql/queries/fetchNeighbors.ts:124-125 | A binding gives an outgoing edge exactly when its subject is the resource. |
| SparqlNeighbors.FetchOneHop | packages/graph-explorer/src/connector/sparql/queries/fetchNeighbors.ts:48-190 | There are no blank-node edges. No vertex is blank, and none is the resource itself. |
| SparqlNeighbors.FetchNeighbors | packages/graph-explorer/src/connector/sparql/queries/fetchNeighbors.ts:232-252 | The neighbours are the one-hop vertices and edges. |
| SparqlNeighbors.VerticesNotResource | packages/graph-explorer/src/connector/sparql/queries/fetchNeighbors.ts:58-62 | No vertex is the resource itself. |
| SparqlNeighbors.DraftsShape | packages/graph-explorer/src/connector/sparql/queries/fetchNeighbors.ts:64-85 | Every draft is stored under its own subject. |
| SparqlNeighbors.OneHopVertices | packages/graph-explorer/src/connector/sparql/queries/fetchNeighbors.ts:58-106 | There is a vertex for u exactly when u has a class among the non-resource triples. Its type is the last class, and in its attributes the last value wins. |
| SparqlNeighbors.ResourceTriplesIgnored | packages/graph-explorer/src/connector/sparql/queries/fetchNeighbors.ts:58-62 | Triples that mention the resource never change the vertices. |
| SparqlNeighbors.EdgeClasses | packages/graph-explorer/src/connector/sparql/queries/fetchNeighbors.ts:118-131 | Each edge carries its neighbour's last class. |
| SparqlNeighbors.OneHopEdges | packages/graph-explorer/src/connector/sparql/queries/fetchNeighbors.ts:111-136 | The edges are the incoming edges followed by the outgoing ones. |
| SparqlTemplates.NeighborsCountLimit | packages/graph-explorer/src/connector/sparql/templates/neighborsCount/neighborsCountTemplate.ts:22-42 | A "LIMIT n" line appears exactly when the limit is positive, with n equal to the limit. With the default of 0 there is none. |
| SparqlTemplates.NeighborsCountShape | packages/graph-explorer/src/connector/sparql/templates/neighborsCount/neighborsCountTemplate.ts:28-44 | The resource appears as an IRI in both union branches. The inner query groups by ?subject before the outer query groups by ?class. |
| SparqlTemplates.NeighborsCountTemplate | packages/graph-explorer/src/connector/sparql/templates/neighborsCount/neighborsCountTemplate.ts:22-45 | The query has seventeen lines. The limit line, which is empty unless the limit is positive, is the inner query's last line. The outer query's last line groups by ?class. |
| SparqlTemplates.OneHopLines | packages/graph-explorer/src/connector/sparql/templates/oneHopNeighbors/oneHopNeighborsTemplate.ts:61-135 | The query has 43 + 2n lines for branches of n lines. Line 5 binds the source, line 6 holds the classes, and the last line is ORDER BY ?subject. |
| SparqlTemplates.Subquery | packages/graph-explorer/src/connector/sparql/templates/oneHopNeighbors/oneHopNeighborsTemplate.ts:62-90 | The neighbour sub-query binds the source on line 5 and holds the classes on line 6. The UNION is on line 7 + n and the limit clause on line 10 + 2n. |
| SparqlTemplates.SubqueryBranches | packages/graph-explorer/src/connector/sparql/templates/oneHopNeighbors/oneHopNeighborsTemplate.ts:70-87 | The incoming branch comes just before the UNION and the outgoing branch just after it. |
| SparqlTemplates.OneHopLimitSlot | packages/graph-explorer/src/connector/sparql/templates/oneHopNeighbors/oneHopNeighborsTemplate.ts:88-89 | The limit clause is the line after ORDER BY ?neighbor, inside the sub-query. |
| SparqlTemplates.SubqueryBindsOnce | packages/graph-explorer/src/connector/sparql/templates/oneHopNeighbors/oneHopNeighborsTemplate.ts:62-90 | When no slot text is itself a binding of the source, the sub-query binds the source on exactly one line. |
| SparqlTemplates.ConnectionsBindTwice | packages/graph-explorer/src/connector/sparql/templates/oneHopNeighbors/oneHopNeighborsTemplate.ts:100-134 | The four unions after the sub-query bind the source exactly twice, once in each connection-predicate branch. |
| SparqlTemplates.BranchesAgree | packages/graph-explorer/src/connector/sparql/templates/oneHopNeighbors/oneHopNeighborsTemplate.ts:70-86 | The incoming and outgoing branches agree except on their link lines. Both carry the filters and, when enabled, the isLiteral filter. |
| SparqlTemplates.OneHopBindsSourceThrice | packages/graph-explorer/src/connector/sparql/templates/oneHopNeighbors/oneHopNeighborsTemplate.ts:68-111 | The resource is bound as ?source exactly three times. |
| SparqlTemplates.OneHopNeighborsWithHelpers | packages/graph-explorer/src/connector/sparql/templates/oneHopNeighbors/oneHopNeighborsTemplate.ts:54-89 | The query has 57 lines and ends with ORDER BY ?subject. It binds the source on line 5, and line 6 holds the helper's clause for the classes, which default to empty. |
| SparqlTemplates.OneHopNeighborsWithHelpersSlots | packages/graph-explorer/src/connector/sparql/templates/oneHopNeighbors/oneHopNeighborsTemplate.ts:54-89 | Both branches carry the helper's filter clause and the isLiteral filter. The limit line is the helper's clause for the limit and offset, which default to 0. |
| SparqlTemplates.SubjectClassesClause | packages/graph-explorer/src/connector/sparql/templates/oneHopNeighborsTemplate.ts:60-66 | The clause is empty exactly when there are no classes. Otherwise it is a VALUES clause. |
| SparqlTemplates.SubjectClassesRoundTrip | packages/graph-explorer/src/connector/sparql/templates/oneHopNeighborsTemplate.ts:60-66 | Classes without a ">" can be read back from the clause, in order. |
| SparqlTemplates.IrisRoundTrip | packages/graph-explorer/src/connector/sparql/templates/oneHopNeighborsTemplate.ts:65 | The space-joined IRIs parse back to the classes. |
| SparqlTemplates.Disjunct | packages/graph-explorer/src/connector/sparql/templates/oneHopNeighborsTemplate.ts:74-77 | The disjunct contains the predicate as an IRI and the criterion's text verbatim, without escaping. |
| SparqlTemplates.FiltersClause | packages/graph-explorer/src/connector/sparql/templates/oneHopNeighborsTemplate.ts:68-80 | The clause is empty exactly when there are no criteria. Otherwise it is a FILTER containing every criterion's disjunct. |
| SparqlTemplates.LimitClause | packages/graph-explorer/src/connector/sparql/templates/oneHopNeighborsTemplate.ts:82 | The clause is empty exactly when the limit is not positive. Otherwise it is a LIMIT line. |
| SparqlTemplates.LimitClauseRoundTrip | packages/graph-explorer/src/connector/sparql/templates/oneHopNeighborsTemplate.ts:82 | A positive limit and its offset read back from the clause. |
| SparqlTemplates.OneHopNeighborsTemplate | packages/graph-explorer/src/connector/sparql/templates/oneHopNeighborsTemplate.ts:53-156 | The query has 55 lines and ends with ORDER BY ?subject. The resource is bound as ?source on exactly three lines: 5, 25 and 33. |
| SparqlTemplates.OneHopNeighborsTemplateSlots | packages/graph-explorer/src/connector/sparql/templates/oneHopNeighborsTemplate.ts:53-111 | Omitted values take the empty defaults. Line 6 is the VALUES clause, both neighbour branches carry the same FILTER clause, and line 22 is the limit clause. |
| SparqlTemplates.ClausesNotBindSource | packages/graph-explorer/src/connector/sparql/templates/oneHopNeighborsTemplate.ts:60-82 | None of the VALUES, FILTER and LIMIT clauses is a binding of the source. |
| DatabaseRequests.ParseAuthMode | packages/graph-explorer/src/data/DatabaseRequest.ts:4-20 | The auth mode is chosen by name alone. IAM needs a region and a valid service type, and a missing mode is PUBLIC. |
| DatabaseRequests.ParseDatabaseRequest | packages/graph-explorer/src/data/DatabaseRequest.ts:16-21 | Validation succeeds exactly when there are no errors. The URL is then the valid databaseUrl string given. The query and engine are the strings given. The auth mode is the one parsed from the object, and PUBLIC when it is missing. |
| DatabaseRequests.AuthModeRoundTrip | packages/graph-explorer/src/data/DatabaseRequest.ts:19 | An encoded auth mode parses back to itself, and an omitted one parses as PUBLIC. |
| DatabaseRequests.RequestRoundTrip | packages/graph-explorer/src/data/DatabaseRequest.ts:16-21 | An encoded request parses back to itself. With the auth mode omitted, it parses back with PUBLIC. |
| DbRoute.ExpectedEndpoint | packages/graph-explorer/src/app/api/db/route.ts:166-175 | The endpoint is "/" followed by the engine's name. |
| DbRoute.CombinePaths | packages/graph-explorer/src/app/api/db/route.ts:181-183 | A pathname other than "" or "/" is followed by the endpoint. Otherwise only the endpoint is used. |
| DbRoute.FilterPair | packages/graph-explorer/src/app/api/db/route.ts:181-183 | The join of the base path and the endpoint is the base path followed by the endpoint, or the endpoint alone. |
| DbRoute.Resolve | packages/graph-explorer/src/app/api/db/route.ts:184 | A path not starting with "//" replaces the base's path and query on the base's scheme and host. Any result keeps the scheme and has no query. |
| DbRoute.ResolveNetworkPath | packages/graph-explorer/src/app/api/db/route.ts:184 | A path "//host/rest" is a network-path reference (WHATWG URL standard): it resolves to that host with path "/rest", replacing the base's host. |
| DbRoute.CreateEndpointUrlAsWritten | packages/graph-explorer/src/app/api/db/route.ts:163-186 | As written, a path that already contains the endpoint keeps the base URL, and any result keeps the scheme. |
| DbRoute.EndpointUrlAsWrittenProperties | packages/graph-explorer/src/app/api/db/route.ts:163-186 | As written, a path that already contains the endpoint keeps the base URL, and any result keeps the scheme. When the path does not start with "//", the URL resolves on the same host. Its path is the base path (unless "" or "/") followed by the endpoint, and a second application changes nothing. |
| DbRoute.EndpointUrlAsWrittenDoubleSlash | packages/graph-explorer/src/app/api/db/route.ts:181-185 | As written, the path "/db/" becomes "/db//gremlin". |
| DbRoute.EndpointUrlAsWrittenNetworkPath | packages/graph-explorer/src/app/api/db/route.ts:181-185 | As written, the base path "//db" sends the request to host "db" with path "/gremlin". The corrected rule keeps the host and gives "//db/gremlin". |
| DbRoute.CreateEndpointUrl | packages/graph-explorer/src/app/api/db/route.ts:163-186 | The corrected rule always keeps the scheme and host, and a path that already contains the endpoint keeps the base URL. |
| DbRoute.EndpointUrlProperties | packages/graph-explorer/src/app/api/db/route.ts:163-186 | Corrected: the path contains the endpoint, with scheme and host kept, and a second application changes nothing. No slash is doubled before the endpoint. The rule agrees with the code as written whenever the path neither ends in "/" nor starts with "//". |
| DbRoute.CreateRequestOptions | packages/graph-explorer/src/app/api/db/route.ts:96-161 | The method is POST and the body carries the query, as JSON exactly for Gremlin. PUBLIC keeps the engine headers. IAM uses the signed headers when there are any. |
| DbRoute.Outgoing | packages/graph-explorer/src/app/api/db/route.ts:140-158 | The request goes to the endpoint URL given by the rule as written. An unresolvable URL, or a signing failure under IAM, sends nothing. The scheme is kept. When the path does not start with "//", the host is kept and the path contains the endpoint, and a URL that already names it is kept. Options are shaped per engine. |
| DbRoute.OutgoingSends | packages/graph-explorer/src/app/api/db/route.ts:140-158 | When the URL resolves and signing succeeds, the request goes to that URL with options built from the request and the signed headers. |
| DbRoute.AcceptHeaders | packages/graph-explorer/src/app/api/db/route.ts:102-139 | The Accept header is GraphSON v3 for Gremlin, JSON for openCypher and SPARQL results JSON for SPARQL. The content type is JSON for Gremlin and form-encoded otherwise. |
| DbRoute.Post | packages/graph-explorer/src/app/api/db/route.ts:7-57 | A body that fails validation gets 400. A non-JSON body, or a failure in signing or fetching, gets 500. Otherwise the upstream status, status text and body are passed through. |
| DbRoute.PostSends | packages/graph-explorer/src/app/api/db/route.ts:7-57 | A valid body is sent upstream with its query. The answer depends only on what the upstream returns for that URL and those options, and a successful upstream answer is passed through. |
| DbRoute.RejectedBeforeFetch | packages/graph-explorer/src/app/api/db/route.ts:11-16 | An invalid body gives 400 whatever the upstream does. |
| GraphState.CleanIfAny | packages/graph-explorer/src/core/StateProvider/nodes.ts:31-35 | An ID set becomes its intersection with the new ids, so it never gains an id. |
| GraphState.CleanIds | packages/graph-explorer/src/core/StateProvider/nodes.ts:20-35 | Each of the four ID sets becomes its intersection with the new ids. |
| GraphState.CleanedSubset | packages/graph-explorer/src/core/StateProvider/nodes.ts:20-29 | Each cleaned set is a subset of the old one, and cleaning again changes nothing. |
| GraphState.NewEntry | packages/graph-explorer/src/core/StateProvider/nodes.ts:51-59 | A new type entry has the item's type, an empty label and one attribute per key. |
| GraphState.NewEntryAttributes | packages/graph-explorer/src/core/StateProvider/nodes.ts:51-59 | The new entry's attributes are the item's keys, in order, none hidden. |
| GraphState.FirstOfType | packages/graph-explorer/src/core/StateProvider/nodes.ts:50 | An item is found exactly when the type occurs, and it has that type. |
| GraphState.InferTypesKeepsExisting | packages/graph-explorer/src/core/StateProvider/nodes.ts:48-63 | Existing entries stay in place, unchanged. |
| GraphState.InferTypesCovers | packages/graph-explorer/src/core/StateProvider/nodes.ts:48-63 | The configured types become the old ones plus the new list's types. |
| GraphState.InferTypesDistinct | packages/graph-explorer/src/core/StateProvider/nodes.ts:48-63 | No type is configured twice. |
| GraphState.InferTypesNewEntries | packages/graph-explorer/src/core/StateProvider/nodes.ts:48-63 | Each appended entry is for a missing type and is built from that type's first item. |
| GraphState.InferTypes | packages/graph-explorer/src/core/StateProvider/nodes.ts:48-65 | The existing types stay first and unchanged, and at most one type is added per item. |
| GraphState.InferInto | packages/graph-explorer/src/core/StateProvider/nodes.ts:44-68 | With a schema, only the side's list changes, gaining the inferred types. Without one, a non-empty list throws and an empty list gives empty lists. |
| GraphState.UpdateSchemas | packages/graph-explorer/src/core/StateProvider/nodes.ts:37-71 | Nothing changes without an active connection, and an empty id counts as none. The write throws exactly when the active schema is missing and the list is non-empty. Otherwise only the active entry is rewritten, in place. |
| GraphState.WriteNodes | packages/graph-explorer/src/core/StateProvider/nodes.ts:13-72 | RESET only empties the list. A new list is stored, the ID sets are pruned and the schema is inferred. The edges are untouched. |
| GraphState.NodesWriteSchema | packages/graph-explorer/src/core/StateProvider/nodes.ts:44-70 | The active schema keeps its edges and gains exactly the new vertex types. Other schemas are unchanged. |
| GraphState.WriteEdges | packages/graph-explorer/src/core/StateProvider/edges.ts:17-77 | RESET only empties the list. A new list is stored, the edge ID sets are pruned and the schema is inferred. The nodes are untouched. |
| GraphState.EdgesWriteSchema | packages/graph-explorer/src/core/StateProvider/edges.ts:49-76 | The active schema keeps its vertices and gains exactly the new edge types, without duplicates. Other schemas are unchanged. |
| SchemaUpdate.UpdatedEntry | packages/graph-explorer/src/hooks/useUpdateSchema.ts:20-52 | triedToSync is true. lastSyncFail is set exactly when there is no new schema but an old one. Edges fall back to the old edges, vertices do not, and missing totals are 0. |
| SchemaUpdate.UpdateSchema | packages/graph-explorer/src/hooks/useUpdateSchema.ts:15-54 | Only the entry for the id is written, in place or appended last. Every other entry is untouched. |
| SchemaUpdate.FailedSyncKeepsHistory | packages/graph-explorer/src/hooks/useUpdateSchema.ts:49-51 | A failed sync keeps the edges, prefixes and last update time, and flags the failure. |
| SchemaUpdate.CompleteResponseRecorded | packages/graph-explorer/src/hooks/useUpdateSchema.ts:26-52 | A complete response is stored as given, and storing it again changes nothing. |
| ExpandNode.EffectiveLimit | packages/graph-explorer/src/hooks/useExpandNode.tsx:124-130 | The filter limit is used when it is truthy. Otherwise the connection's limit is used. |
| ExpandNode.ExpandNode | packages/graph-explorer/src/hooks/useExpandNode.tsx:122-149 | Nothing is submitted while an expansion is pending. A vertex with no unfetched neighbours only raises a notification. A submitted request carries the vertex and the caller's filters with the effective limit. |
| ExpandNode.ToNeighborsRequest | packages/graph-explorer/src/hooks/useExpandNode.tsx:68-75 | The request carries the vertex id and id type, and the filters with their limit. |
| ExpandNode.VertexTypeNamesTypes | packages/graph-explorer/src/hooks/useExpandNode.tsx:71-73 | The request type names every type of the vertex. A single-typed vertex asks for its type. |
| ExpandNode.FetchRequest | packages/graph-explorer/src/hooks/useExpandNode.tsx:64-82 | A request is sent exactly when there is an explorer. |
| ExpandNode.ExpandAndMerge | packages/graph-explorer/src/hooks/useExpandNode.tsx:77-91 | Without an explorer the entities are unchanged. With one, the response is merged in. |
| ExpandNode.SubmittedRequestSent | packages/graph-explorer/src/hooks/useExpandNode.tsx:64-149 | A submitted expansion does send a request. The request names the vertex's id and id type, the effective limit and the caller's other filters, and its vertex type names every type of the vertex. |
| ExpandNode.ResubmitKeepsLimit | packages/graph-explorer/src/hooks/useExpandNode.tsx:124-130 | Re-submitting a request's filters keeps its limit. |
| Retry.Pow2Monotone | packages/graph-explorer/src/core/ConnectedProvider/ConnectedProvider.tsx:23-25 | Powers of two do not decrease. |
| Retry.ExponentialBackoff | packages/graph-explorer/src/core/ConnectedProvider/ConnectedProvider.tsx:23-25 | The delay is between 1000 and 30000 ms, and it is 1000 ms up to attempt 1. |
| Retry.BackoffMonotone | packages/graph-explorer/src/core/ConnectedProvider/ConnectedProvider.tsx:23-25 | The delay never decreases from one attempt to the next. |
| Retry.BackoffSchedule | packages/graph-explorer/src/core/ConnectedProvider/ConnectedProvider.tsx:24 | The delay is 1000 ms up to attempt 1. For attempts 2 to 4 it is 2^attempt·1000, below the cap. From attempt 5 it is 30000. |
| Retry.Attempts | packages/graph-explorer/src/core/ConnectedProvider/ConnectedProvider.tsx:30-31 | A query makes at least one attempt and at most four. It stops at a first success without waiting. |
| Retry.AttemptsBounded | packages/graph-explorer/src/core/ConnectedProvider/ConnectedProvider.tsx:30-31 | With the backoff, at most three capped delays are spent waiting. |
| Retry.ShouldRetry | packages/graph-explorer/src/core/ConnectedProvider/ConnectedProvider.tsx:30 | A query is retried exactly after its first, second and third failures. |
| CreateConnection.ValidateForm | packages/graph-explorer/src/modules/CreateConnection/CreateConnection.tsx:47-111 | Validation succeeds exactly when there are no field issues and no cross-field issues, and a valid form comes back unchanged. A failure carries the field issues followed by the cross-field issues, at least one of them. |
| CreateConnection.RefinementsReported | packages/graph-explorer/src/modules/CreateConnection/CreateConnection.tsx:80-111 | Each broken cross-field rule is reported on its field, with its message. |
| CreateConnection.ValidFormSatisfiesRules | packages/graph-explorer/src/modules/CreateConnection/CreateConnection.tsx:80-111 | A valid form satisfies all four rules, with positive numbers. |
| CreateConnection.MapToConnection | packages/graph-explorer/src/modules/CreateConnection/CreateConnection.tsx:120-134 | Every field is copied, except that a timeout or limit whose toggle is off is dropped. |
| CreateConnection.MapToInitialData | packages/graph-explorer/src/modules/CreateConnection/CreateConnection.tsx:136-157 | The engine and service type default to gremlin and neptune-db. Each flag is true only when stored true, and each toggle is on exactly when its value is truthy. The url defaults to "". The database URL, region, timeout and limit are copied. The name is the stored label when truthy, else the non-empty id, else "Connection (<date>)", so it is never empty. |
| CreateConnection.FormRoundTrip | packages/graph-explorer/src/modules/CreateConnection/CreateConnection.tsx:120-157 | A named form whose toggles match its values comes back unchanged after saving and reopening. |
| CreateConnection.ConnectionRoundTrip | packages/graph-explorer/src/modules/CreateConnection/CreateConnection.tsx:120-157 | A connection, reopened and saved, gets its defaults filled in. A fully specified one comes back unchanged. |
| CreateConnection.ResetSyncState | packages/graph-explorer/src/modules/CreateConnection/CreateConnection.tsx:201-220 | The sync state is cleared only when the URL or the engine changed. Other schemas are untouched. |
| CreateConnection.OnSave | packages/graph-explorer/src/modules/CreateConnection/CreateConnection.tsx:169-220 | Without a configuration id (an empty id counts as none), a new configuration is added and made active, and the schemas are untouched. An edited one keeps its place and file flag, and its schema is reset by the rule. Other configurations are unchanged. |
| CreateConnection.EnforceEngine | packages/graph-explorer/src/modules/CreateConnection/CreateConnection.tsx:248-252 | With neptune-graph the engine becomes openCypher. Nothing else changes. |
| CreateConnection.EnforceEngineIdempotent | packages/graph-explorer/src/modules/CreateConnection/CreateConnection.tsx:248-252 | Applying the engine rule twice is the same as applying it once. |
| Layout.CloseSidebar | packages/graph-explorer/src/workspaces/GraphExplorer/GraphExplorer.tsx:75-80 | The sidebar item is cleared and nothing else changes. |
| Layout.ToggleSidebar | packages/graph-explorer/src/workspaces/GraphExplorer/GraphExplorer.tsx:82-99 | The item is closed if it is open, otherwise it is opened. Nothing else changes. |
| Layout.ToggleSidebarTwice | packages/graph-explorer/src/workspaces/GraphExplorer/GraphExplorer.tsx:82-99 | Two toggles restore the layout exactly when nothing or that item was open. |
| Layout.ToggleView | packages/graph-explorer/src/workspaces/GraphExplorer/GraphExplorer.tsx:101-118 | Only the item's membership in the toggle set flips. |
| Layout.ToggleViewInvolution | packages/graph-explorer/src/workspaces/GraphExplorer/GraphExplorer.tsx:101-118 | Toggling a view twice restores the layout. |
| Layout.ResizeTable | packages/graph-explorer/src/workspaces/GraphExplorer/GraphExplorer.tsx:120-133 | The height becomes the current height (300 by default) plus the delta. |
| Layout.ResizeAdds | packages/graph-explorer/src/workspaces/GraphExplorer/GraphExplorer.tsx:120-133 | Two resizes add up. |
| Layout.HasNamespacesIffSparql | packages/graph-explorer/src/workspaces/GraphExplorer/GraphExplorer.tsx:66 | Namespaces exist exactly for a SPARQL connection. |
| Layout.IsSidebarOpen | packages/graph-explorer/src/workspaces/GraphExplorer/GraphExplorer.tsx:183-186 | The sidebar is open exactly when an item is active, and not if it is namespaces without SPARQL. |
| Layout.AutoOpenDetails | packages/graph-explorer/src/workspaces/GraphExplorer/GraphExplorer.tsx:146-167 | Details open exactly when one entity is selected, auto-open is not off, and both the current and the previous sidebar items are unset. |
| Layout.AutoOpenOpensSidebar | packages/graph-explorer/src/workspaces/GraphExplorer/GraphExplorer.tsx:146-186 | After an auto-open the sidebar is open, and before it the sidebar was closed. |
| DataExplorer.ParamNumber | packages/graph-explorer/src/workspaces/DataExplorer/DataExplorer.tsx:80-85 | A missing or empty parameter gives the default. |
| DataExplorer.InitialPagination | packages/graph-explorer/src/workspaces/DataExplorer/DataExplorer.tsx:80-85 | A missing page gives index 0 and a missing size gives 20. A numeric page gives index page - 1. |
| DataExplorer.NumberTextRoundTrip | packages/graph-explorer/src/workspaces/DataExplorer/DataExplorer.tsx:87-117 | A number written as a parameter reads back as the same number, and NaN reads back as NaN. |
| DataExplorer.NumberText | packages/graph-explorer/src/workspaces/DataExplorer/DataExplorer.tsx:87-117 | The text is "NaN" exactly for a missing number, and otherwise it is all digits. |
| DataExplorer.OnPageIndexChange | packages/graph-explorer/src/workspaces/DataExplorer/DataExplorer.tsx:87-101 | The parameters become exactly page and pageSize, and any others are dropped. |
| DataExplorer.PageIndexChangeReadsBack | packages/graph-explorer/src/workspaces/DataExplorer/DataExplorer.tsx:87-101 | After a page change, the parameters read back as the new page and the old page size. |
| DataExplorer.OnPageSizeChange | packages/graph-explorer/src/workspaces/DataExplorer/DataExplorer.tsx:103-117 | The parameters become exactly page and pageSize, and any others are dropped. |
| DataExplorer.PageSizeChangeReadsBack | packages/graph-explorer/src/workspaces/DataExplorer/DataExplorer.tsx:103-117 | After a size change, the parameters read back as the old page and the new size. |
| DataExplorer.PageRequest | packages/graph-explorer/src/workspaces/DataExplorer/DataExplorer.tsx:201-213 | A request is made exactly when there is a vertex type and an explorer. It asks for that one type, with the page size as its limit. |
| DataExplorer.PagesTile | packages/graph-explorer/src/workspaces/DataExplorer/DataExplorer.tsx:208-212 | Each page starts where the previous one ends. |
| DataExplorer.TotalRows | packages/graph-explorer/src/workspaces/DataExplorer/DataExplorer.tsx:349 | A known total is used. Otherwise the pager sees one page more than the current one. |
| DataExplorer.OtherTypes | packages/graph-explorer/src/workspaces/DataExplorer/DataExplorer.tsx:252 | Every kept entry is from the list and has another type, and every entry of another type is kept. |
| DataExplorer.FindType | packages/graph-explorer/src/workspaces/DataExplorer/DataExplorer.tsx:237-239 | A found entry is from the list and has the type. Nothing is found only when no entry has the type. |
| DataExplorer.OnDisplayNameChange | packages/graph-explorer/src/workspaces/DataExplorer/DataExplorer.tsx:230-262 | Nothing changes without a vertex type, and the edge styling is never touched. |
| DataExplorer.DisplayNameChangeShape | packages/graph-explorer/src/workspaces/DataExplorer/DataExplorer.tsx:230-262 | Exactly one entry has the type, and it is last and carries the new value. Other types keep their entries, in order. |
| OrderedMaps.FromEntriesLastWins | packages/graph-explorer/src/connector/sparql/queries/fetchNeighbors.ts:95-98 | For a repeated key, the value kept is the last one given. |

## Left out

- `utils/swimmer.ts` is not part of this model. It is a promise pool, and its behaviour is concurrency and the order in which promises settle.
- Share links (`ShareLinkButton.tsx`) are not part of this model. They rely on browser compression and encoding APIs.
- The graph viewer layout (`ReactFlowGraphViewer.tsx`) is not part of this model. It is delegated to dagre and d3 and uses floating-point geometry.
- I/O is left out: `fetch` calls, logging, tRPC, the file-based configuration loader, `process.exit`, and timer polling in `useLoadStore`. `fetch` appears only as a function parameter where its result matters.
- IAM request signing and the AWS credential chain are left out. The signed headers are a parameter of `DbRoute.CreateRequestOptions`.
- React rendering, styles, themes and routing are left out. The remaining state rules (`useResetState`, `onClose`, the form's `watch`) are left out too, because they only trigger renders.
- The debounce timer in the graph workspace is left out. Only the auto-open decision is modelled.
- TanStack Query's retryer is modelled only through the retry count and the delay function.
- URL validity (`z.url()`) is the predicate parameter `isUrl`. Parsing the database URL (`new URL(databaseUrl)`) is the function parameter `parseUrl` of `DbRoute.Outgoing`. It yields the scheme, host, path and query.
- DbRoute.Resolve: only resolution against an http or https base is modelled, and only for paths that start with "/". Host validation, percent-encoding, backslashes, dot segments and lower-casing of the host are left out.
- The indentation `dedent` produces is left out. A template is a sequence of lines.
- Blank lines and `#` comment lines of the SPARQL templates are left out, because SPARQL ignores them. Line positions in the table count only the remaining lines, from 0.
- Helpers whose source is not part of this model are function parameters. These are `sanitizeText`, `mapApiVertex`, `mapApiEdge`, `createVertexFragment`, `mapIncomingToEdge`, `mapOutgoingToEdge`, `getSubjectClasses`, `getFilters` and `getLimit` from the template helpers, and the blank-node one-hop template. `toNodeMap` and `toEdgeMap` are taken to build a Map from ids, where the last entity wins.
- Floating point, `NaN` arithmetic and number formatting are left out. `Number()` is modelled on decimal digit strings, and any other text is `NaN`.
- Environment.CoerceNumber: `z.coerce.number()` accepts any text `Number()` reads. The model reads only the empty string and plain decimal digits. Surrounding whitespace, signs, hexadecimal, exponents and fractions are treated as rejected, because `Number()`'s full grammar and floating point are out of scope.
- Runs of spaces inside a SPARQL template line are written as one space, and trailing spaces are dropped. For example `?neighbor ?pClass    ?class .` in `oneHopNeighborsTemplate.ts` line 73 is `?neighbor ?pClass ?class .`. SPARQL treats any run of whitespace alike.
- GraphState.InferTypes: the source's `reduce` pushes new types into the active schema's own `vertices` (or `edges`) array, so the previous schema object is changed in place as well. The model returns a new list and leaves the previous schema value as it was.
- ExpandNode.ExpandAndMerge: the `onError` path of the expansion (`useExpandNode.tsx` lines 93-102) is left out. It only logs the error and shows a notification.
- CreateConnection.MapToInitialData: the date in a new connection's default name is the parameter `dateLabel`. The clock and `formatDate` are left out.
- JavaScript puts integer-like record keys first. That ordering is left out: every record keeps insertion order.
- Attribute values are strings and numbers. Dates and nested objects are not distinguished.
- The `value as string` casts in `onDisplayNameChange` are taken to receive strings. Arrays are not modelled.
- `activeSidebarItem` set to `undefined` is not distinguished from `null`.
- GraphState.InferInto: when the active schema is absent and the list is empty, the source stores `undefined` for the list, and the model stores an empty list instead. The other list falls back to `[]` in both.
- The test in `neighborsCountTemplate.test.ts` lines 6-32 expects `LIMIT 500` by default. The code defaults the limit to 0. `SparqlTemplates.NeighborsCountLimit` follows the code.

## Findings

| source | as written | input that shows it | evidently intended | confidence | as-written member | corrected member |
|---|---|---|---|---|---|---|
| packages/graph-explorer/src/utils/constants.ts:12-13 | `BASE_URL.substring(-1) === "/"` tests the whole string, because `substring` clamps -1 to 0. So only "/" itself counts as ending in a slash. | BASE_URL "/app/" gives RELOAD_URL "/app//" | Keep a base that already ends in "/", and append one otherwise | not executed | Constants.ReloadUrlAsWrittenDoubleSlash | Constants.ReloadUrlProperties |
| packages/graph-explorer/src/app/api/db/route.ts:181-185 | The base pathname is kept whole when it is not "" or "/", and `/${endpoint}` is appended. A trailing slash therefore doubles. | pathname "/db/" with engine gremlin gives "/db//gremlin" | Strip the trailing slash before appending the endpoint | not executed | DbRoute.EndpointUrlAsWrittenDoubleSlash | DbRoute.EndpointUrlProperties |
| packages/graph-explorer/src/app/api/db/route.ts:184 | `new URL(combinedEndpoint, baseURL)` reads a combined path that starts with "//" as a network-path reference. The first path segment becomes the host. | database URL https://db.example:8182//db with engine gremlin resolves to host "db" with path "/gremlin" | Keep the database's host and append the endpoint to its path | not executed | DbRoute.EndpointUrlAsWrittenNetworkPath | DbRoute.EndpointUrlProperties |
