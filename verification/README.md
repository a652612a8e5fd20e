# Approval requests (`aprobaciones`): a Dafny model

This project models the approval-request application `aprobaciones` in Dafny. A request (*solicitud*) is raised by a requester (*solicitante*) and is addressed to an approver (*responsable*). It moves through the states `pendiente`, `en_revision`, `aprobado`, `rechazado` and `cancelado`. Each request keeps an append-only history (*historial*) and a list of comments (*comentarios*).

The model covers four parts of the application:

- the lifecycle and validation rules: the state-transition validator, the two versions of the network-username validator, description cleaning, and the form's length and choice rules;
- the closed code sets and the style tables;
- the record shapes and their default orderings;
- both request stores. One is the database-backed service. The other is the earlier service backed by a JSON list.

The model has no mutable state. A store is a `seq<Solicitud>`. Every service call is a pure function from a store to a `Respuesta`. A `Respuesta` holds the store afterwards, the request returned (or `None`), and the e-mail the call would hand to the notifier (or `None`). Request identifiers and clock readings are parameters.

Modules, one per source file plus shared pieces:

| file | module | models |
|---|---|---|
| `wrappers.dfy` | `Wrappers` | `Option` and `Result` |
| `constants.dfy` | `Constants` | `aprobaciones/constants.py` |
| `text.dfy` | `Text` | the Python `str` methods the code relies on (`strip`, `split`, `join`, `replace`, `isalnum`, `title`) |
| `utils.dfy` | `Utils` | `aprobaciones/utils.py` |
| `utils_legacy.dfy` | `UtilsLegacy` | `aprobaciones/utils_bck_24082025.py`, compared with the current helpers |
| `forms.dfy` | `Forms` | `aprobaciones/forms.py`, including the Django field cleaning it relies on |
| `models.dfy` | `Models` | `aprobaciones/models.py`: records, defaults, orderings, cascade deletion |
| `almacen.dfy` | `Almacen` | behaviour shared by both stores: the state-change body, the notifications, the counts |
| `services.dfy` | `Services` | `aprobaciones/services.py` (database-backed) |
| `services_json.dfy` | `ServicesJson` | `aprobaciones/services_bck_24082025.py` (JSON-list-backed) |
| `lifecycle.dfy` | `CicloDeVida` | sequences of service calls, plus a state change guarded by the validator |

Four facts about the code shape the model:

- **No validation in the store.** Neither store ever calls `validar_cambio_estado` (`aprobaciones/services.py:92-126`). `Services.CambiarEstado` overwrites the state unconditionally, and `Services.CambiarEstadoIgnoresFinalStates` proves that a final state can be left. The JSON store's update can also overwrite `estado` directly (`ServicesJson.ActualizarReabreFinal`).
- **The guarded state change is not source behaviour.** `CicloDeVida.CambiarEstadoValidado` consults the validator first. It shows what the validator would guarantee if the store called it.
- **Length checks live only in the form.** `crear_solicitud` checks no field length; only the form does (`Forms`). The database column widths are a separate limit, listed under "Left out".
- **Statistics do not count `cancelado`.** `obtener_estadisticas` counts four states, so cancelled requests and requests with unknown state strings appear only in the total.

## Model

| member | source | states |
|---|---|---|
| Constants.LabelOf | aprobaciones/utils.py:68-69 | `dict(choices).get(code)`: a label is found exactly when the code is in the list, and it belongs to an entry with that code |
| Constants.EstadoFromCode | aprobaciones/constants.py:4-10 | a string names a state exactly when it is one of the five state codes, and the state maps back to that code |
| Constants.TipoFromCode | aprobaciones/constants.py:13-20 | a string names a request type exactly when it is one of the six type codes, with the same round trip |
| Constants.CodeListsMatchTables | aprobaciones/constants.py:4-81 | the literal code lists are the codes of the state, type, action and comment-kind tables |
| Constants.CodesAreDistinct | aprobaciones/constants.py:4-81 | no two states, types, history actions or comment kinds share a code |
| Constants.EnumerationsMatchCodes | aprobaciones/constants.py:4-81 | each Dafny enumeration corresponds one-to-one to its code list; history actions and comment kinds are exactly the listed sets |
| Constants.StatePartition | aprobaciones/constants.py:60-63 | the modifiable and final states are disjoint and together are exactly the five states |
| Constants.StyleTablesCoverStates | aprobaciones/constants.py:42-57 | the colour and icon tables are defined on exactly the five state codes |
| Text.StripLeft | aprobaciones/utils.py:172 | the result is a suffix of the input, what was dropped is all whitespace, and the result does not start with whitespace |
| Text.StripRight | aprobaciones/utils.py:172 | the result is a prefix of the input, what was dropped is all whitespace, and the result does not end with whitespace |
| Text.WordLen | aprobaciones/utils.py:173 | the first run of non-whitespace ends at a whitespace character or at the end of the string |
| Text.Words | aprobaciones/utils.py:173 | `split()` yields words that are non-empty and contain no whitespace; run together they are exactly the non-whitespace characters of the input, in order; there is one word for each non-whitespace character at the start or after whitespace |
| Text.WordsCons | aprobaciones/utils.py:173 | a first word followed by the words of the rest is a well-formed split holding all non-whitespace characters, with one word per word start |
| Text.NonBlankWord | aprobaciones/utils.py:173 | taking a word off the front of a string takes its characters off the front of the string's non-whitespace characters |
| Text.WordStartsWord | aprobaciones/utils.py:173 | a maximal run of non-whitespace at the front of a string starts exactly one word |
| Text.JoinNormalized | aprobaciones/utils.py:173 | joining such words with one space gives a string with no leading, trailing or doubled whitespace, which is empty only when there are no words |
| Text.WordLenPrefix | aprobaciones/utils.py:173 | a word followed by whitespace or by nothing is read back as exactly that word |
| Text.WordsOfJoin | aprobaciones/utils.py:173 | `' '.join(ws).split() == ws` for any well-formed words |
| Text.WordsAppendBlanks | aprobaciones/utils.py:173 | trailing whitespace does not change the words |
| Text.WordsOfBlanks | aprobaciones/utils.py:168-173 | an all-whitespace string has no words |
| Text.WordsOfStrip | aprobaciones/utils.py:172-173 | stripping does not change the words |
| Text.WordsStripRight | aprobaciones/utils.py:172 | right-stripping does not change the words |
| Text.WordsStripLeft | aprobaciones/utils.py:172 | left-stripping does not change the words |
| Text.WordsAtBlank | aprobaciones/utils.py:173 | `split()` cuts at every whitespace character: the words of `a + c + b`, for whitespace `c`, are the words of `a` followed by those of `b` |
| Text.WordsBeforeBlank | aprobaciones/utils.py:173 | the words of `a` followed by text starting with whitespace are the words of `a` followed by the words of that text |
| Text.WordLenBeforeBlank | aprobaciones/utils.py:173 | whitespace after a string does not lengthen its first run of non-whitespace |
| Text.WordsAtBlankStart | aprobaciones/utils.py:173 | leading whitespace adds no word |
| Text.WordsAtWordStart | aprobaciones/utils.py:173 | at a non-whitespace character the run starting there is the first word |
| Text.WordThenBlank | aprobaciones/utils.py:173 | a word followed by whitespace or by nothing is the first word |
| Text.WordsOfWord | aprobaciones/utils.py:173 | a non-empty run without whitespace is exactly one word |
| Text.RemoveChar | aprobaciones/utils.py:61 | `replace(c, '')` drops every `c` and keeps every other character exactly as many times as it occurs; it is the identity when `c` is absent |
| Text.RemoveCharConcat | aprobaciones/utils.py:61 | removal distributes over concatenation; with `RemoveCharUno` this fixes the kept characters in their original order |
| Text.RemoveCharUno | aprobaciones/utils.py:61 | on one character, removal drops it if it is `c` and keeps it otherwise |
| Text.ReplaceChar | aprobaciones/utils.py:69 | `replace(a, b)` changes exactly the occurrences of `a`, and nothing else; for `a != b` no `a` is left, and every character of the result is `b` or came from the input |
| Text.Title | aprobaciones/utils.py:69 | `title()` keeps the length, every non-letter, and every letter up to case; a letter of the result is upper case exactly when it starts the string or follows a non-letter |
| Text.TitleIdempotent | aprobaciones/utils.py:69 | title-casing a title-cased string changes nothing |
| Utils.ValidarUsuarioRed | aprobaciones/utils.py:49-64 | accepted exactly when the name has at least three characters, contains only letters, digits, `.` and `_`, and has at least one letter or digit; errors come in the order empty, short, charset |
| Utils.CharsetCheck | aprobaciones/utils.py:61 | removing `.` and `_` leaves a non-empty alphanumeric string exactly when every character is a letter, digit, `.` or `_` and at least one is a letter or digit |
| Utils.FormatearTipoSolicitud | aprobaciones/utils.py:66-69 | a known type code gives its label from the types table; any other code gives a string of the same length with no `_`, equal up to case to the code with every `_` turned into a space, whose letters are upper case exactly when they start the string or follow a non-letter |
| Utils.ObtenerColorEstado | aprobaciones/utils.py:71-73 | a known state gives its table colour; the result is always a colour from the table, and it is `secondary` exactly for `cancelado` and for unknown states |
| Utils.ObtenerIconoEstado | aprobaciones/utils.py:75-77 | a known state gives its table icon; the question-mark icon is returned exactly for unknown states |
| Utils.CrearMensajeNotificacion | aprobaciones/utils.py:79-112 | a template is chosen when its key is given; the generic text is returned exactly when the key matches no template |
| Utils.ValidarCambioEstado | aprobaciones/utils.py:114-137 | accepted exactly for the table's pairs, or for an unknown current state with a known target; a final state rejects with its message; an unknown target from a non-final state is rejected as invalid |
| Utils.NoSelfTransition | aprobaciones/utils.py:114-137 | no string, known state or not, may move to itself |
| Utils.TransitionsFromKnownStates | aprobaciones/utils.py:119-135 | a final state rejects every target; from `pendiente` and `en_revision` exactly the four other states are accepted |
| Utils.LimpiarDescripcion | aprobaciones/utils.py:166-175 | empty input gives `""`; the output has no leading, trailing or doubled whitespace and has the same words as the input |
| Utils.LimpiarIdempotent | aprobaciones/utils.py:166-175 | cleaning a cleaned description changes nothing |
| UtilsLegacy.ValidarUsuarioRed | aprobaciones/utils_bck_24082025.py:46-61 | accepted exactly when the name has at least three characters, all letters or digits; errors come in the same order |
| UtilsLegacy.UsuarioRedRefines | aprobaciones/utils_bck_24082025.py:58 | every name the earlier validator accepts, the current one accepts too |
| UtilsLegacy.UsuarioRedStrictlyWeaker | aprobaciones/utils.py:61 | `j.p` is accepted by the current validator and refused by the earlier one |
| UtilsLegacy.DottedNameSeparates | aprobaciones/utils.py:61 | every name of at least three username characters that holds a letter or digit and a dot is accepted by the current validator and refused by the earlier one |
| UtilsLegacy.FormatearTipoSolicitud | aprobaciones/utils_bck_24082025.py:63-66 | a known code gives the same label as the current version; an unknown code keeps its length and is equal to it up to case, underscores kept, with letters upper case exactly when they start the string or follow a non-letter |
| UtilsLegacy.TipoFallbackDiffers | aprobaciones/utils_bck_24082025.py:66 | for an unknown code the two versions agree exactly when the code has no underscore |
| UtilsLegacy.ObtenerColorEstado | aprobaciones/utils_bck_24082025.py:68-77 | the inline table gives the colour table's entry for known states and `secondary` otherwise |
| UtilsLegacy.ColorVersionsAgree | aprobaciones/utils_bck_24082025.py:68-77 | the earlier and current colour helpers agree on every string |
| UtilsLegacy.CrearMensajeNotificacion | aprobaciones/utils_bck_24082025.py:79-115 | the earlier helper selects templates with the same keys and falls back to the same generic text |
| Forms.FormChoicesMatchConstants | aprobaciones/forms.py:7-14 | the form offers exactly the six type codes of the constants, in the same order |
| Forms.CleanCharField | aprobaciones/forms.py:16-48 | a required text field is accepted exactly when its stripped value is non-empty, within the length limit and free of NUL characters; the stripped value is kept; blank input gives only the required error |
| Forms.CleanTipoField | aprobaciones/forms.py:50-55 | the type is accepted exactly when it is one of the six codes; empty input is the required error and any other string an invalid choice |
| Forms.CleanTitulo | aprobaciones/forms.py:57-61 | a title is accepted, unchanged, exactly when it has at least five characters |
| Forms.CleanDescripcion | aprobaciones/forms.py:63-67 | a description is accepted, unchanged, exactly when it has at least ten characters |
| Forms.CampoTituloLimpio | aprobaciones/forms.py:16-22 | the title field is accepted, stripped, exactly when it has 5 to 200 characters after stripping and no NUL character |
| Forms.CampoDescripcionLimpio | aprobaciones/forms.py:24-30 | the description field is accepted, stripped, exactly when it has at least 10 characters after stripping and no NUL character |
| Forms.CampoUsuarioLimpio | aprobaciones/forms.py:32-48 | a user field is accepted, stripped, exactly when it has 1 to 100 characters after stripping and no NUL character |
| Forms.ValidarFormulario | aprobaciones/forms.py:5-67 | the form is valid exactly when every field and both hooks pass; the cleaned data are the stripped values; an invalid form reports at least one error |
| Forms.ValidFormGivesValidData | aprobaciones/forms.py:16-67 | valid form data have a title of 5 to 200 characters, a description of at least 10, users of 1 to 100 and a known type |
| Forms.TitleBoundary | aprobaciones/forms.py:59 | a four-character title is refused and a five-character one accepted |
| Models.InsertPos | aprobaciones/models.py:76-83 | the insertion point splits a sorted list into smaller keys before it and not-smaller keys after it |
| Models.Insert | aprobaciones/models.py:76-83 | inserting into a sorted list keeps it sorted and adds exactly that element |
| Models.InsertAtSorted | aprobaciones/models.py:76-83 | placing an element at its insertion point keeps a sorted list sorted |
| Models.InsertAtMultiset | aprobaciones/models.py:76-83 | placing an element anywhere adds exactly that element |
| Models.SortBy | aprobaciones/models.py:76-83 | `order_by` yields a permutation of the input, ascending by key |
| Models.HistorialOrdenado | aprobaciones/models.py:76-78 | the history view is a permutation of the history, oldest first |
| Models.ComentariosOrdenados | aprobaciones/models.py:80-83 | the comment view is a permutation of the comments, oldest first |
| Models.OrdenPorDefecto | aprobaciones/models.py:63 | the default listing is a permutation of the requests, newest first |
| Models.Buscar | aprobaciones/services_bck_24082025.py:81-85 | finds the first request with the identifier, and finds nothing exactly when none has it |
| Models.BuscarPrimera | aprobaciones/services_bck_24082025.py:82-84 | the loop returns the record at the first position holding the identifier |
| Models.BuscarUnico | aprobaciones/models.py:11-16 | with unique identifiers, the first match is the one request with that identifier |
| Models.Seleccionar | aprobaciones/services_bck_24082025.py:174 | a list comprehension keeps exactly the requests satisfying the condition, each as many times as it occurs |
| Models.SeleccionarConcat | aprobaciones/services_bck_24082025.py:174 | the comprehension keeps list order: over two stretches of a list it yields the selection of the first followed by that of the second |
| Models.SeleccionarUno | aprobaciones/services_bck_24082025.py:174 | a one-element list yields that element exactly when it satisfies the condition |
| Models.Eliminar | aprobaciones/models.py:90-94 | deleting a request removes exactly the requests with that identifier and changes nothing when there is none |
| Models.EliminarCascada | aprobaciones/models.py:90-94 | with unique identifiers, deletion removes one request together with exactly its history entries and comments |
| Models.EliminarAusente | aprobaciones/models.py:135-139 | deleting an absent identifier leaves every request, history entry and comment in place |
| Almacen.AvisoNuevaSolicitud | aprobaciones/services.py:201-212 | a new request is announced to the approver at `@gmail.com` with the new-request template |
| Almacen.AvisoCambioEstado | aprobaciones/services.py:214-229 | a state change is announced to the requester at `@empresa.com`; the approval template is used exactly when the new state is `aprobado`, and the rejection template otherwise |
| Almacen.AplicarCambioEstado | aprobaciones/services.py:97-119 | the state becomes the new one and the request data stay; one history entry is appended, recording the action, user, time and previous state, with the given comment or `Solicitud <state>`; one comment of that kind is appended exactly when the text is non-empty |
| Almacen.Reemplazar | aprobaciones/services_bck_24082025.py:143 | writing back position `i` changes that position only |
| Almacen.ReemplazarMismoId | aprobaciones/services.py:96-101 | saving a request under its own identifier keeps identifiers unique |
| Almacen.Contar | aprobaciones/services.py:132-135 | the count of a state is at most the total, and zero exactly when no request has that state |
| Almacen.ContarOtros | aprobaciones/services.py:130-136 | requests in none of the five states are at most the total |
| Almacen.ObtenerEstadisticas | aprobaciones/services.py:128-138 | the total is the number of requests; the four counted states, plus `cancelado`, plus unknown states, sum to the total, so the four counts never exceed it |
| Almacen.ContarReparte | aprobaciones/services.py:128-138 | every request is in exactly one bucket: one of the five states, or the others |
| Almacen.ContarReemplazar | aprobaciones/services.py:99-101 | replacing one request moves it from the count of its old state to the count of its new one |
| Services.Vista | aprobaciones/services.py:168-199 | the returned record has the stored data with its history and comments reordered oldest first, and loses none |
| Services.VistasMembership | aprobaciones/services.py:45 | listing any permutation of the requests yields exactly the views of the requests |
| Services.Listar | aprobaciones/services.py:41-45 | a query returns a permutation of the views of the selected requests, each as often as it is selected, newest first |
| Services.CrearSolicitud | aprobaciones/services.py:13-37 | appends one request in `pendiente` with the form's data, one `creada` history entry by the requester and no comments; earlier requests are untouched, identifiers stay unique, and the approver is notified |
| Services.ObtenerTodas | aprobaciones/services.py:39-45 | returns a permutation of the views of all requests, newest first |
| Services.ObtenerPorId | aprobaciones/services.py:47-56 | `None` exactly when no request has the identifier; otherwise the view of that request |
| Services.AplicarActualizacion | aprobaciones/services.py:64-78 | only `titulo`, `descripcion` and `tipo_solicitud` take supplied values; every other field stays; one `actualizada` entry is appended by the given user or else the requester |
| Services.ActualizarSolicitud | aprobaciones/services.py:58-82 | an unknown identifier changes nothing and returns `None`; otherwise only the matching request changes, as described for the update body |
| Services.CambiarEstado | aprobaciones/services.py:92-126 | an unknown identifier changes nothing and notifies no one; otherwise only the matching request changes, as described for the state-change body, and its requester is notified |
| Services.AprobarSolicitud | aprobaciones/services.py:84-86 | approval is a state change to `aprobado` and uses the approval template |
| Services.RechazarSolicitud | aprobaciones/services.py:88-90 | rejection is a state change to `rechazado` and uses the rejection template |
| Services.CambiarEstadoIgnoresFinalStates | aprobaciones/services.py:96-110 | any request, even a final one, takes the new state, and the history records the state it left |
| Services.ObtenerEstadisticasDb | aprobaciones/services.py:128-138 | the total is the number of requests; each of the four counts is the number of requests in that state, at most the total; the four counts plus cancelled and unknown-state requests sum to the total |
| Services.ObtenerPorUsuario | aprobaciones/services.py:140-151 | with `tipo == 'solicitante'` a permutation of the views of that requester's requests, otherwise of that approver's, newest first |
| Services.DelUsuario | aprobaciones/services.py:143-148 | selects each request of the user, as often as it is stored, and no other |
| Services.Seleccion | aprobaciones/services.py:155-164 | a request is kept, as often as it is stored, exactly when it matches every non-empty filter |
| Services.Filtrar | aprobaciones/services.py:153-166 | returns a permutation of the views of the requests matching every non-empty filter, newest first |
| Services.FiltrarSinFiltros | aprobaciones/services.py:157-166 | with no non-empty filter the result is the full listing |
| Services.SeleccionTodo | aprobaciones/services.py:157-164 | with no non-empty filter the selection is the whole store |
| Services.SeleccionarTodo | aprobaciones/services.py:157-164 | selecting with an always-true condition returns the whole store |
| ServicesJson.CrearSolicitud | aprobaciones/services_bck_24082025.py:38-73 | appends one record at the end in `pendiente`, with one `creada` history entry that has no previous state and an empty comment list; earlier records are unchanged and the approver is notified |
| ServicesJson.ObtenerPorId | aprobaciones/services_bck_24082025.py:79-85 | returns the first record with the identifier, as stored, or `None` exactly when there is none |
| ServicesJson.DuplicadoOculto | aprobaciones/services_bck_24082025.py:44-65 | a record appended under an identifier already present is never returned by lookup |
| ServicesJson.AplicarActualizacion | aprobaciones/services_bck_24082025.py:94-98 | every supplied key except `id` is overwritten, `estado` included; history and comments are untouched |
| ServicesJson.ActualizarSolicitud | aprobaciones/services_bck_24082025.py:87-104 | an unknown identifier changes nothing; otherwise only the first match changes, and no history entry is added |
| ServicesJson.PrimeraCon | aprobaciones/services_bck_24082025.py:91-92 | the first match is a position inside the list |
| ServicesJson.ActualizarReabreFinal | aprobaciones/services_bck_24082025.py:94-96 | an update can put a final request back into `pendiente` without a history entry |
| ServicesJson.CambiarEstado | aprobaciones/services_bck_24082025.py:114-151 | an unknown identifier changes nothing; otherwise only the first match changes, with the same history and comment effects as the database store, and its requester is notified |
| ServicesJson.AprobarSolicitud | aprobaciones/services_bck_24082025.py:106-108 | approval is a state change to `aprobado` |
| ServicesJson.RechazarSolicitud | aprobaciones/services_bck_24082025.py:110-112 | rejection is a state change to `rechazado` |
| ServicesJson.ObtenerEstadisticasJson | aprobaciones/services_bck_24082025.py:153-169 | the total is the list length; each count is the length of the list of records in that state; the four counts sum to at most the total |
| ServicesJson.ContarEsSeleccion | aprobaciones/services_bck_24082025.py:158-161 | counting a state equals the length of the comprehension that lists it |
| ServicesJson.ObtenerPorUsuario | aprobaciones/services_bck_24082025.py:171-174 | keeps exactly the records whose chosen field equals the user, each as often as it is stored |
| ServicesJson.ObtenerPorUsuarioOrden | aprobaciones/services_bck_24082025.py:171-174 | the list keeps file order: a lone record is listed exactly when it matches, and two stretches of the file give their lists one after the other |
| CicloDeVida.PasoEfecto | aprobaciones/services.py:58-126 | one update or state change keeps every position and identifier, keeps identifiers unique, and adds exactly one history entry to the addressed request and none to any other |
| CicloDeVida.ReemplazoPuntual | aprobaciones/services.py:96-101 | saving one request under its own identifier keeps every identifier in place and unique, and leaves every other request unchanged |
| CicloDeVida.ReemplazoEfecto | aprobaciones/services.py:58-126 | saving a request with the same identifier and one more history entry keeps positions and unique identifiers, and only that position gains an entry |
| CicloDeVida.HistorialUnaEntradaPorOperacion | aprobaciones/services.py:58-126 | over any sequence of updates and state changes, earlier history is never rewritten and each request gains exactly one entry per call addressed to it |
| CicloDeVida.HistorialTrasCreacion | aprobaciones/services.py:13-126 | a created request keeps its `creada` entry at stored position 0, followed in storage order by one entry per later call addressed to it |
| CicloDeVida.CambiarEstadoValidado | aprobaciones/utils.py:114-137 | the guarded change fails on an unknown identifier, succeeds exactly when the validator accepts, and then does what the store's state change does |
| CicloDeVida.PasoValidadoEfecto | aprobaciones/utils.py:119-120 | with the guard, one call never changes a request in a final state |
| CicloDeVida.EdicionEfecto | aprobaciones/services.py:64-70 | an update keeps every position, identifier and state |
| CicloDeVida.ActualizacionConserva | aprobaciones/services.py:64-70 | an update never changes the identifier or the state |
| CicloDeVida.TransicionValidadaEfecto | aprobaciones/utils.py:119-120 | a guarded state change keeps positions and identifiers, and a request in a final state keeps its state |
| CicloDeVida.FinalesAbsorbentes | aprobaciones/utils.py:119-120 | with the guard, no sequence of calls moves a request out of a final state |
| CicloDeVida.SegundaTransicionFalla | aprobaciones/utils.py:119-120 | after a guarded approval, every further guarded state change of that request fails |

## Left out

- Views, URLs, the admin, app configuration and the project package are HTTP and Django plumbing around the services. The filters in the views repeat `filtrar_solicitudes`.
- The JavaScript files hold client-side checks that repeat the server's rules, and DOM code.
- JSON file loading and saving, and `transaction.atomic`, are not modelled. Each service call is one atomic step on an in-memory value.
- Concurrency is not modelled.
- `generar_id_solicitud` (`uuid4`) is not modelled; identifiers are parameters. The database store requires a fresh identifier, standing in for uuid4 uniqueness. The integrity error a duplicate key would raise is therefore not modelled.
- The clock is not modelled: `obtener_timestamp`, `datetime.now` and `isoformat` are replaced by integer instants passed as parameters.
- `formatear_fecha_local` and `generar_codigo_solicitud` are not modelled: they only format dates and the clock.
- `obtener_mensaje_sistema`, `MENSAJES` and `PRIORIDADES` are not modelled; no core operation uses them.
- `enviar_notificacion_email` is not modelled. Its printing and its commented-out mail call are I/O; the model returns the recipient and the template instead.
- Utils.CrearMensajeNotificacion: returns the chosen template rather than the filled-in f-string text.
- UtilsLegacy.CrearMensajeNotificacion: returns the chosen template rather than the filled-in f-string text.
- Text.IsAlnumChar: ASCII letters and digits only. Python's `isalnum` also accepts other Unicode letters and digits.
- Text.Title: ASCII letters only. Python's `title()` also cases other Unicode letters.
- Text.IsSpace: `split()` and `strip()` use the exact set of characters for which Python's `str.isspace` is true. No other Unicode behaviour is modelled.
- ServicesJson.AplicarActualizacion: supplied keys are limited to the record's text fields. A key such as `usuario_actualizacion`, `historial`, a date field or an unknown key would also be written into the JSON record; those keys are not modelled.
- The default comment kind `general` (aprobaciones/models.py:155-164) is not modelled. The only comment the services create is the one `cambiar_estado` writes (aprobaciones/services.py:113-119), and it always sets the kind to the new state, so no core path uses the default.
- ServicesJson.ObtenerPorUsuario: `tipo` is one of the record's text keys. A key a record lacks raises `KeyError` in the source; that case is not modelled.
- `obtener_todas_solicitudes` of the JSON store is not modelled separately: it returns the list exactly as stored.
- Services.Vista: dates are integer instants rather than ISO strings, and the identifier is already a string.
- Models.EliminarCascada: records deletion as the ORM's cascade does. The services never delete, so no service member uses it.
- Django does not enforce `choices` when saving. States, types, actions and comment kinds are therefore modelled as free strings, and the model's operations accept values outside the code sets.
- Services.CrearSolicitud: the column widths are not modelled. `titulo` is 200 characters wide, `solicitante` and `responsable` 100, `tipo_solicitud` 20 (`aprobaciones/models.py:17-48`). A longer value makes the database raise an error and roll the call back; the model stores it.
- Services.ActualizarSolicitud: the same column widths are not modelled. A longer `titulo`, or a `tipo_solicitud` over 20 characters, would make the save fail and roll back; the model stores it.
- Services.CambiarEstado: the column widths are not modelled. `estado` and `estado_anterior` are 20 characters wide, `accion` 50, history and comment `usuario` 100, comment `tipo` 20 (`aprobaciones/models.py:43-156`). The view passes any posted state through, so a state over 20 characters would fail and roll back; the model stores it.
- Services.ObtenerPorId: identifiers are compared as plain strings. The source's `UUIDField` lookup parses the argument: a string that is not a UUID raises a validation error that the service does not catch, and other spellings of a stored UUID (upper case, no hyphens) find the request.
- Services.ActualizarSolicitud: identifiers are compared as plain strings; a malformed identifier raises an uncaught validation error in the source, and other spellings of a stored UUID match, as for lookup.
- Services.CambiarEstado: identifiers are compared as plain strings; a malformed identifier raises an uncaught validation error in the source, and other spellings of a stored UUID match, as for lookup.
