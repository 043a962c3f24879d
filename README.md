# Inbox API client: verified model of its deterministic core

This project models the network-free logic of the Python Inbox API client
(`inbox/client.py`) in Dafny and proves properties of it:

- **Typed records** (`records.dfy`, module `Records`). `InboxAPIObject.from_dict`
  and the six allow-lists of `Message`, `Tag`, `Thread`, `Draft`, `File` and
  `Namespace` are modelled. A decoded JSON object is a `map<string, V>`, where `V`
  stands for any decoded value. A record is a `Record(kind, fields)`.
  `FromDict` is the source's loop over the kind's `attrs` list. `FromDictSpec`
  is the independent specification: the raw keys intersected with the
  allow-list, each with its raw value. Item access (`dict.__getitem__`, which
  `__getattr__` delegates to) is `GetAttr`. It returns `None` where Python
  raises `KeyError`.
- **Resource accessors** (`resources.dfy`, module `Resources`). This covers:
  - the namespace override in `_get_resources` and `_get_resource`: a
    `namespace` keyword argument wins and is popped;
  - the URL loop that appends `name=value&` per remaining argument;
  - `_get_resource`'s removal of the last character;
  - the list-decoding loop.

  Keyword arguments are a `seq<(string, string)>` in the order
  `for arg in kwargs` visits them, with values already rendered as text. The
  namespace, resource name and resource id that `%s` formats are text too. The decoded response body is a parameter of
  `GetResources`, `GetResource` and `GetNamespaces`.
- **Class helpers** (`client.dfy`, module `Client`). This covers:
  - `request_code`: the authorization-code request URI of section 4.1.1 of
    RFC 6749, written without percent-encoding;
  - the search loop of `from_email`, over a given sequence of namespace
    records.
- **A reference query reader** (`query.dfy`, module `Query`). It splits on `&`
  and then at the first `=`, and is the independent partner for the URL
  builders. The lemmas built on it show three things:
  - for plain arguments (no `&` in a name or a value, no `=` in a name), a
    list URL reads back as its arguments plus one empty field left by the
    dangling `&` (`QueryTailParses`);
  - a get-by-id URL's query is the `&`-joined arguments, which for plain
    arguments read back as exactly the arguments (`ParseJoin`);
  - the authorization URI reads back as exactly its five parameters when no
    argument holds `&`. When the application id does hold `&`, it is read back
    as a shorter id followed by a stray field (`RequestCodeUnencoded`), because
    nothing is percent-encoded.

`wrappers.dfy` holds the `Option` type.

Three facts about the code shape the model:
- No key outside the allow-list holds for what `from_dict` builds
  (`AllowListed`). It does not hold after `__setattr__`, which is not modelled.
- Status handling through `raise_for_status()` is not modelled.
- List URLs keep their dangling `&`, as the code writes them (`ListUrl`,
  `QueryTailParses`).

## Model

| member | source | states |
|---|---|---|
| Records.FromDictSpec | inbox/client.py:18-25 | the record has the requested kind and no key outside its allow-list; its keys are exactly the raw keys in the allow-list; every value equals the raw value |
| Records.FromDict | inbox/client.py:18-25 | the copy loop over `attrs` builds the record whose keys are the raw keys intersected with the allow-list, with the raw values, i.e. the record `FromDictSpec` describes |
| Records.GetAttrOfFromDict | inbox/client.py:14-25 | item access on a built record succeeds if and only if the key was both sent and allow-listed, and then yields the raw value; otherwise it is the `KeyError` |
| Records.FromDictOfEmpty | inbox/client.py:20-25 | an empty raw object gives an empty record, for every kind |
| Records.FromDictIdempotent | inbox/client.py:18-25 | building a record again from a built record's own fields gives the same record |
| Records.DraftAttrsExtendMessage | inbox/client.py:29-43 | the draft allow-list is the message allow-list followed by `"state"`, as a list and as a set |
| Records.DraftAgreesWithMessage | inbox/client.py:29-43 | a draft and a message built from the same raw object agree on every message attribute; the draft's fields are the message's plus `"state"` when it was sent |
| Resources.KeyIndex | inbox/client.py:122-123 | the position of the first argument with the given name, or the length when there is none |
| Resources.SelectNamespace | inbox/client.py:121-123 | without a `namespace` argument: the default namespace and the arguments unchanged; otherwise the value of the first `namespace` argument, with that argument removed and the others kept in order |
| Resources.NamespaceNotInQuery | inbox/client.py:121-127 | with distinct argument names, no `namespace` argument is left for the query string |
| Resources.QueryTail | inbox/client.py:126-127 | the appended text is empty exactly when no argument is left, and otherwise ends in `&` |
| Resources.QueryTailJoin | inbox/client.py:126-127 | for at least one argument, the appended text is the rendered arguments joined with `&`, plus one dangling `&` |
| Resources.QueryTailParses | inbox/client.py:125-127 | for plain arguments (no `&` in a name or a value, no `=` in a name), the appended text read back by the reference query reader gives exactly the arguments, in order, followed by one empty field |
| Resources.AppendQuery | inbox/client.py:126-127 | the `url +=` loop leaves the head followed by `name=value&` for each argument, in order |
| Resources.ListUrl | inbox/client.py:120-127 | the list URL is `apiBase + ns + "/" + resource + "?"` followed by `name=value&` for each remaining argument; it ends in `?` when none remain and in `&` otherwise |
| Resources.ItemUrl | inbox/client.py:139-149 | the get-by-id URL is the same construction with `"/" + id` minus its last character: it ends at the id when no argument remains, and otherwise is the `&`-joined query with no dangling separator |
| Resources.TrimmedQuery | inbox/client.py:147-149 | dropping the last character of `head + "?" + query text` gives the bare head, or the head, `?` and the `&`-joined arguments |
| Query.ParseJoin | inbox/client.py:145-149 | rendered plain arguments joined with `&`, which is what the get-by-id query holds, read back as exactly those arguments, in order |
| Resources.FromDictList | inbox/client.py:133-137 | the decoding loop returns one record per array entry, in order, each the `from_dict` of its entry, allow-listed and of the requested kind |
| Resources.GetResources | inbox/client.py:120-137 | `_get_resources` requests the list URL and returns the in-order records of the response array |
| Resources.GetResource | inbox/client.py:139-155 | `_get_resource` requests the trimmed get-by-id URL and returns the record built from the response object |
| Resources.GetNamespaces | inbox/client.py:195-203 | `get_namespaces` requests the API base itself and returns one namespace record per response entry, in order |
| Client.RequestCodeIsJoin | inbox/client.py:69-74 | the authorization URI is the endpoint, `?`, and the parameters `client_id`, `response_type=code`, `scope=email`, `login_hint`, `redirect_uri` rendered and joined with `&`, in that order |
| Client.RequestCodeParses | inbox/client.py:69-74 | when no argument holds `&`, the URI starts with the endpoint and `?`, and its query reads back as exactly those five parameters |
| Client.RequestCodeUnencoded | inbox/client.py:69-74 | because nothing is percent-encoded, an application id `a&b` is read back as the id `a`, then a stray field `b`, then the other four parameters |
| Client.FromEmail | inbox/client.py:60-66 | the search returns a result other than not-found if and only if some namespace does not pass; the result is the outcome at the first namespace that matches or lacks `email_address`; a found id belongs to a namespace whose `email_address` equals the argument |

## Left out

- Records.GetAttrOfFromDict: it models item access, which `__getattr__` delegates to. A Python attribute read of a name found on the class or on `dict` (`attrs`, `keys`, `get`, `from_dict`, ...) never reaches `__getattr__`, and returns that class attribute or method instead of raising.
- HTTP and session calls (`requests.Session().get` and `.post`), `response.json()` and `raise_for_status()`: network I/O and JSON decoding by a library. The decoded body is a parameter, and HTTP errors and transport failures are not modelled.
- `get_access_token`: an HTTP POST followed by a dictionary lookup.
- The Basic-auth header built with `b64encode` in `__init__`: a library call with a bytes/str fallback.
- `__init__`, `from_token` and `from_namespace`: they only construct the client. `Config` holds the two fields the accessors read. The namespace is an opaque string.
- Default-namespace resolution through `get_namespaces(...)[0]` in `__init__`: it stores a whole namespace record rather than an id.
- `__setattr__` and `__delattr__`: they can add keys outside a record's allow-list, so the allow-list invariant holds after `from_dict` only.
- The `%s` formatting of keyword-argument values: values are modelled as already-rendered text.
- The key order of a built record: a `map` has no order, so the order in which `from_dict` inserts keys is not captured.
- Resources.SelectNamespace: Python keyword arguments have distinct names, but a `seq` allows repeats. The model pops the first `namespace` entry, and `NamespaceNotInQuery` requires distinct names.
- `_create_resource`, `_create_resources` and `_update_resource`: they read an undefined `kwargs` and fail before building a URL.
- `get_files` and `send_draft`: they pass Python's builtin `id` rather than a value.
- `create_files`, `update_tags` and `send_message`: they read a non-existent `self.namespace`.
- `get_messages`, `get_threads`, `get_thread`, `get_drafts`, `get_draft`, `get_file`, `create_draft` and `create_tag`: each is a one-line call of a generic accessor with a fixed resource name and kind. For the working ones, `GetResources` and `GetResource` cover them.
- Client.FromEmail: the source calls `cls.namespaces()`, which is not defined anywhere. The model therefore takes the namespace records as a parameter and returns the matched id instead of constructing a client. A missing `email_address` or `id` key becomes `MissingKey`, where Python raises `KeyError`.
- `tests/test_accounts.py` exercises a different package, which is not part of this model. `setup.py` is packaging metadata.
