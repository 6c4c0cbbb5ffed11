# Tar listing, in Go and in Python

The repository lists the members of a tar archive, one line per member, in
the style of `ls -l`:
a ten-character mode string, `owner/group`, the size right-justified in
eight columns, optionally the modification time, and the member name. It
does this twice: `main.go` and `main.py` implement the same listing.

This project models the core of both programs:

- the permission string. Go's `modeToStr` starts from `drwxrwxrwx` and, for
  each clear bit, calls `strings.Replace`. Python's `mode_to_str` tests each
  bit in turn.
- the value normalisers `convertBytesToStr` (Go) and
  `convert_bytes_to_str` (Python). They turn bytes into strings, rebuild
  maps/dicts and lists, and pass every other value through.
- the user and group name lookups, with their fall-back to the decimal id.
- the record built for each member (`TarEntry` in Go, a dict in Python).
- how the entry templates render that record, and how the rendered
  entries are put together into the listing.

| module | file | models |
|---|---|---|
| `Basics` | basics.dfy | `Option`, `Result`, bytes, mapping over a sequence |
| `Text` | text.dfy | counting, joining (`"\n".join`) and splitting on one character |
| `Decimal` | decimal.dfy | `strconv.Itoa` / `str(int)`, its inverse, `%8d` / `"{:8}"` padding |
| `GoStrings` | gostrings.dfy | `strings.Replace` with a one-character needle and a count |
| `Bits` | bits.dfy | bit tests, `os.FileMode`, `os.ModeDir`, the nine permission bits |
| `GoMode`, `GoModeFacts` | gomode.dfy | Go's `modeToStr` as written, its closed form, and a corrected chain that blanks positions |
| `PyMode` | pymode.dfy | Python's `mode_to_str`, and a corrected version that takes 'd' from the member type |
| `OrderedMaps` | ordmaps.dfy | maps as insertion-ordered pair sequences, `m[k] = v` |
| `GoConvert` | goconvert.dfy | Go's `convertBytesToStr`, including the panic of the `.(string)` assertion |
| `PyConvert` | pyconvert.dfy | Python's `convert_bytes_to_str` |
| `Identity` | identity.dfy | `getUsername`/`getGroupname` and `get_username`/`get_groupname` |
| `Archive` | archive.dfy | the tar header fields, the environment and the mode that Go derives from a header |
| `Columns` | columns.dfy | the column layout both templates share |
| `GoListing` | golisting.dfy | Go's `TarEntry`, its template and `parseTarToTemplate` |
| `PyListing` | pylisting.dfy | Python's entry dict, its template and `parse_tar_to_template` |
| `ModeComparison` | modecomparison.dfy | where the two programs' outputs agree |

The model does not look inside the system's user and group databases, the
time formatting or Python's UTF-8 decoding. These are fields of
`Archive.Env` (functions the caller supplies), so every statement holds for
all of them.

A listing starts from the sequence of tar headers in archive order.
Reading and decoding the archive are not modelled.

Go maps are modelled as sequences of pairs, in the order the `range` loop
visits them. Go does not fix that order, so a statement about a whole map
holds for whichever order the loop takes.

Bit tests are `(m / mask) % 2 == 1` on unbounded integers. For a mask that
is a power of two, this is what Python's `mode & mask == mask` and Go's
`mode&mask != 0` compute, negative `mode` included. It is not the same test
for other masks, and the programs use none. Go's `os.FileMode` is a newtype
of 32-bit values. The Go side sees only the nine permission bits of the
header's mode, plus `ModeDir` for a directory. These are the only bits
`modeToStr` tests.

Both listings are modelled as the code is written, and two behaviours of
the code are recorded as findings (below):

- **Go.** `main.go` comments each character of `drwxrwxrwx` with the one
  permission it stands for (main.go:53-61). `main.py` maps each bit to its
  own position (main.py:26-34), which is also the layout of POSIX `ls -l`.
  But Go's Replace chain lets a clear group or other bit blank the owner's
  letter, so a 0o755 directory prints `dr-xr-xr-x`
  (`GoModeFacts.ModeToStr755`).
- **Python.** `main.py` takes the 'd' from the S_IFDIR bits of the raw
  mode field. Archive writers that store only `mode & 0o7777` leave those
  bits out, and for their directories `main.py` prints `-rwxr-xr-x`
  (`PyMode.ModeToStrPermOnlyDirectory`). Python's own `tarfile` is such a
  writer.

The corrected definitions are separate members:

- `GoModeFacts.ModeToStrFixed` runs the same ten steps but blanks positions.
- `PyMode.ModeToStrTyped` reads the member type.

`ModeComparison.CorrectedModesAgree` proves that the two corrected
definitions print the same string for every header.

## Model

| member | source | states |
|---|---|---|
| GoStrings.Replace | main.go:64-93 | `strings.Replace` with a one-character needle keeps the length; what it does at each position is stated by GoStrings.ReplaceAt |
| GoStrings.ReplaceAt | main.go:64-93 | `strings.Replace(s, old, "-", n)` with a one-character `old` changes position i exactly when it holds `old` and fewer than n earlier occurrences were replaced (always, for negative n); other characters are kept |
| GoStrings.ReplaceConcat | main.go:64-93 | replacing in `a + b` is replacing in `a` and then in `b` with the count that `a` left over |
| GoStrings.ReplaceCount | main.go:64-93 | with a non-negative count n, `min(n, count)` occurrences of the letter are removed |
| GoMode.ModeToStr | main.go:50-96 | `modeToStr` returns ten characters; its value for every mode is the closed form in GoModeFacts.ModeToStrExact |
| GoMode.ModeToStrIsChain | main.go:50-96 | the ten Replace steps on "drwxrwxrwx" equal the same steps taken on the per-class view of which letters are still shown |
| GoModeFacts.ModeToStrExact | main.go:50-96 | closed form of Go's permission string: 'd' iff ModeDir; an owner or group letter is shown iff that letter's owner, group and other bits are all set; an other letter iff its group and other bits are set |
| GoModeFacts.ModeToStrShape | main.go:51-61 | every position shows its own letter of "drwxrwxrwx" or '-' |
| GoModeFacts.ModeToStrSound | main.go:64-93 | a clear bit always prints as '-' |
| GoModeFacts.ModeToStrFull | main.go:50-96 | a regular file with mode 0o777 prints "-rwxrwxrwx" |
| GoModeFacts.ModeToStrEmpty | main.go:50-96 | mode 0 prints "----------" |
| GoModeFacts.ModeToStrMatchesIntendedIff | main.go:50-96 | Go's string is the `ls -l` string exactly when the r, w and x bits are each the same for owner, group and other |
| GoModeFacts.ModeToStr755 | main.go:67-83 | a 0o755 directory prints "dr-xr-xr-x" as written, while the `ls -l` reading is "drwxr-xr-x" |
| GoModeFacts.ModeToStrFixedBits | main.go:63-93 | the corrected chain, in which each clear bit blanks the position of its own bit: position 0 is 'd' iff ModeDir, and position i shows its letter iff its own permission bit is set |
| GoModeFacts.ModeToStrFixedIsIntended | main.go:50-96 | the corrected chain equals the per-bit `ls -l` reading of the mode, for every mode |
| GoModeFacts.ModeToStrFixed755 | main.go:50-96 | the corrected chain prints a 0o755 directory as "drwxr-xr-x" |
| PyMode.ModeToStr | main.py:23-35 | `mode_to_str` returns ten characters; their meaning is stated by PyMode.ModeToStrBits and the round trip by PyMode.ParseModeToStr |
| PyMode.ModeToStrBits | main.py:23-35 | position 0 is 'd' iff S_IFDIR (0o040000) is set; position i shows its letter iff permission bit i-1 is set |
| PyMode.ParseModeToStr | main.py:23-35 | reading the string back gives exactly the ten bits it was printed from |
| PyMode.ModeToStrInjective | main.py:23-35 | two modes print alike exactly when they agree on those ten bits |
| PyMode.ModeToStrPermOnlyDirectory | main.py:25 | a directory whose mode field is 0o755 without type bits prints "-rwxr-xr-x"; the corrected version prints "drwxr-xr-x" |
| PyMode.ModeToStrTypedBits | main.py:25-34 | corrected version: 'd' first iff the member is a directory, and the permission letters as before; it equals `mode_to_str` exactly when the S_IFDIR bit agrees with the member type |
| Archive.GoFileModeBits | main.go:135 | the mode Go passes to modeToStr has ModeDir iff the entry is a directory and carries the header's nine permission bits unchanged |
| Archive.GoFileMode | main.go:135 | the mode taken from the header has ModeDir exactly when the entry is a directory, and the header's nine permission bits |
| OrderedMaps.Assign | main.go:36 | `m[k] = v` overwrites the value of an existing key in place, appends a new key at the end, and keeps every other entry |
| OrderedMaps.AssignAllFresh | main.py:17 | when no key repeats, building a map pair by pair keeps every pair, in order |
| OrderedMaps.AssignAllKeys | main.py:17 | every assigned key is a key of the built map, whatever collisions happen |
| OrderedMaps.AssignAllEntries | main.go:34-37 | the built map holds no pair that was not assigned |
| GoConvert.BytesToStringRoundTrip | main.go:31-32 | `string(b)` loses nothing: converting back gives the same bytes, and every string of byte-sized characters is reached |
| GoConvert.Convert | main.go:29-48 | strings, scalars and `map[string]interface{}` are returned unchanged; `[]byte` becomes a string; a converted list keeps its length; a converted `map[interface{}]interface{}` becomes a `map[string]interface{}` with distinct keys and at most as many entries |
| GoConvert.ConvertPair | main.go:36 | one map entry succeeds exactly when its key converts to a string and its value converts, and then holds both converted values; a key that converts to another type panics naming that key |
| GoConvert.ConvertEntries | main.go:33-38 | a panic-free map loop keeps the keys distinct and has at most one field per entry; its meaning is stated by GoConvert.ConvertEntriesAssigns, GoConvert.FirstPanic and GoConvert.ConvertEntriesPanic |
| GoConvert.ConvertItems | main.go:39-44 | a panic-free list loop keeps the length; its meaning is stated by GoConvert.ConvertItemsPointwise |
| GoConvert.ConvertItemsPointwise | main.go:39-44 | the list loop succeeds iff every item converts, and then item i is the conversion of item i |
| GoConvert.ConvertEntriesAssigns | main.go:33-38 | a map loop with no panic is the in-order assignment of the converted keys and values |
| GoConvert.KeyConvertsToString | main.go:36 | a key passes the `.(string)` assertion iff it is a `[]byte` or a `string` |
| GoConvert.ConvertOkIff | main.go:29-48 | the conversion succeeds exactly when every key of every `map[interface{}]interface{}` it walks is a `[]byte` or a `string` |
| GoConvert.NonStringKeyPanics | main.go:36 | one key of another type makes the whole conversion panic; if every earlier entry converted and the key itself converts, the panic names that key |
| GoConvert.FirstPanic | main.go:35-37 | the map loop stops at the first entry whose converted key is not a string, and panics with that key |
| GoConvert.ConvertPanic | main.go:29-48 | every panic names a map key that the walk reaches through map keys, map values and list items, and that key is neither a `[]byte` nor a `string` |
| GoConvert.ConvertEntriesPanic | main.go:33-38 | a panic of the map loop names a key reached from one of its entries, and that key is neither a `[]byte` nor a `string` |
| GoConvert.ConvertIsNormal | main.go:29-48 | a successful result holds no `[]byte` and no `map[interface{}]interface{}` outside a `map[string]interface{}` |
| GoConvert.ConvertFixesNormal | main.go:29-48 | a value already in that shape is returned unchanged |
| GoConvert.ConvertIdempotent | main.go:29-48 | converting a converted value changes nothing |
| GoConvert.StrMapIsShallow | main.go:45-46 | a `map[string]interface{}` is returned as is, even with `[]byte` values inside |
| GoConvert.ConvertAnyMapKeepsCount | main.go:33-38 | when no two keys convert to the same string, the rebuilt map has one field per entry, in range order |
| GoConvert.ConvertName | main.go:139 | the entry name, a Go string, converts to itself and passes the `.(string)` assertion |
| PyConvert.Convert | main.py:13-21 | strings and scalars unchanged; bytes decoded; lists stay lists of the same length; dicts stay dicts with distinct keys and at most as many entries |
| PyConvert.ConvertDictKeepsCount | main.py:16-17 | when no two keys convert to the same value, the dict keeps every entry, in order, converted |
| PyConvert.ConvertDictKeys | main.py:17 | every converted key is a key of the result |
| PyConvert.ConvertIsConverted | main.py:13-21 | the result holds no bytes anywhere, and every dict in it has distinct keys |
| PyConvert.ConvertFixesConverted | main.py:13-21 | a value with no bytes and distinct dict keys is returned unchanged |
| PyConvert.ConvertIdempotent | main.py:13-21 | converting twice is converting once |
| Identity.DisplayName | main.go:102-116 | the database name when the lookup succeeds; otherwise the canonical decimal spelling of the id: it reads back as the id, and no other string does |
| Identity.FallbackInjective | main.py:40-50 | without a database entry, two ids print alike exactly when they are equal |
| Decimal.Itoa | main.go:107 | `strconv.Itoa` / `str(n)` spells a non-empty text that starts with '-' exactly for a negative number, followed by digits with no leading zero after the sign; its value is stated by Decimal.ItoaRoundTrip and Decimal.ParseIntCanonical |
| Decimal.ItoaRoundTrip | main.go:107 | `strconv.Itoa` output parses back to the number |
| Decimal.ParseIntCanonical | main.go:107 | the parser accepts only the canonical spelling (no leading zeros, no "-0"): whatever reads as n is `strconv.Itoa(n)` |
| Decimal.Pad8 | main.go:16 | `printf "%8d"` / `"{:8}".format` right-justifies the decimal in a field of eight: spaces fill the front and the decimal ends the field, which is never shorter than the decimal |
| Decimal.Pad8Width | main.go:16 | sizes from 0 to 99999999 fill exactly eight columns |
| Decimal.Pad8RoundTrip | main.py:10 | `"{:8}".format(size)` is leading spaces followed by the decimal size, which reads back as the size |
| Decimal.Pad8SingleLine | main.py:10 | the padded size never holds a newline |
| Columns.Row | main.go:16 | a rendered line starts with the mode string and a space, and has no newline when none of its fields has one; its columns are stated by Columns.RowColumns |
| Columns.RowColumns | main.go:16 | a line holds the mode string, one space, the owner at the next offset, '/', the group, two spaces, the padded size (exactly eight columns for a size from 0 to 99999999), the timestamp column, one space and the name, which ends the line |
| Columns.RowLaidOutIff | main.py:10 | a text is the rendered line exactly when it is laid out in those columns: the layout determines the line |
| Columns.RowModeIff | main.py:10 | two lines whose other fields agree are equal exactly when their equally wide mode strings are |
| GoListing.BuildEntry | main.go:134-145 | the record has a 10-character mode string, 'd' first iff a directory, equal to the closed form of the Replace chain on the header's mode. The flag is recorded. MTime is the formatted time when timestamps are shown and stays empty when they are hidden. UIDName and GIDName are the database names when the lookups succeed, and otherwise the canonical decimal id. Size and name are copied |
| GoListing.Line | main.go:15-17 | one template execution, without its newline, stays on one line when the record's fields do; its columns are stated by GoListing.LineColumns |
| GoListing.LineColumns | main.go:16 | a line has the template's columns, with ' ' and MTime as the timestamp column when ShowTimestamp holds and an empty one otherwise |
| GoListing.HiddenTimestampIgnored | main.go:16 | with ShowTimestamp false, the MTime field does not reach the output and the timestamp column is empty |
| GoListing.Render | main.go:155-163 | executing the template over the entries gives the empty string exactly when there are none; its layout is stated by GoListing.RenderIsJoin and GoListing.RenderSplit |
| GoListing.ParseTarToTemplate | main.go:118-164 | the listing of the decoded headers is empty exactly when there are none; its lines are stated by GoListing.ListingLines |
| GoListing.RenderIsJoin | main.go:155-163 | executing the template once per entry gives the lines joined by newlines, with a final newline |
| GoListing.RenderSplit | main.go:155-163 | for one-line fields, splitting the output at newlines gives every entry's line in order and a final empty piece; there are as many newlines as entries |
| GoListing.ListingLines | main.go:128-163 | when no name, formatted time or member name holds a newline, the listing has one line per header, in archive order, each the template applied to that header's record |
| GoListing.ListingAppend | main.go:128-163 | listing a + b is the listing of a followed by the listing of b |
| GoListing.BuildEntryPrintable | main.go:134-145 | the record's fields are one line when the names, the time and the member name are |
| PyListing.BuildEntry | main.py:56-63 | the dict holds a 10-character mode string, 'd' first iff S_IFDIR, and positions 1-9 the letter of "rwxrwxrwx" exactly when its permission bit is set, '-' otherwise; the time is always formatted. uid_name and gid_name are the database names when the lookups succeed, and otherwise the canonical decimal id. Size and name are copied |
| PyListing.Render | main.py:9-11 | a rendered entry has no newline when its fields have none (the template's newlines are both stripped) |
| PyListing.RenderColumns | main.py:10 | a rendered entry has the template's columns, with the timestamp column always ' ' and mtime |
| PyListing.ListingLines | main.py:66-68 | when no name, formatted time or member name holds a newline, a non-empty listing splits at newlines into the rendered entries in member order, with k - 1 newlines for k members |
| PyListing.ParseTarToTemplate | main.py:52-68 | a listing with no members is the empty string; its lines are stated by PyListing.ListingLines |
| PyListing.ListingAppend | main.py:52-68 | listing a + b is the listing of a, a newline, then the listing of b |
| PyListing.BuildEntryPrintable | main.py:56-63 | the dict's fields are one line when the names, the time and the member name are |
| ModeComparison.IntendedMatchesPython | main.py:23-35 | the per-bit `ls -l` reading of Go's mode and Python's string agree on all nine permission letters, and on the first character iff Go's directory flag matches S_IFDIR |
| ModeComparison.ModeStringsAgreeIff | main.go:50-96 | Go's string as written equals Python's exactly when the directory indications agree and the permission bits are uniform across classes |
| ModeComparison.EntriesCorrespond | main.go:134-145 | with the timestamp shown, the Go record holds `modeToStr`'s string and the Python dict `mode_to_str`'s, and they differ in nothing else |
| ModeComparison.LinesAgreeIff | main.py:56-68 | with the timestamp shown, a Go line and a Python line agree exactly when Go's directory flag matches S_IFDIR and the permission bits are uniform across classes |
| ModeComparison.FixedLinesAgreeIff | main.go:134-145 | if the Go record held the corrected chain's string instead, its line would equal Python's exactly when the directory indications agree |
| ModeComparison.CorrectedModesAgree | main.py:23-35 | Go's corrected chain and Python's corrected mode string are equal for every header |
| ModeComparison.CorrectedLinesAgree | main.py:56-68 | with both corrected mode strings, the Go line and the Python line are equal for every header |
| Text.Join | main.py:68 | `"\n".join` of no parts is the empty string; its meaning is stated by Text.SplitJoin and Text.JoinAppend |
| Text.SplitJoin | main.py:68 | splitting `"\n".join(parts)` on newlines gives the parts back when none holds a newline |
| Text.JoinAppend | main.py:68 | joining two non-empty runs of parts puts one separator between their joins |

## Left out

- Opening the file, `tarReader.Next()` and `tarfile.open`/`getmembers` are left out. The model starts from the decoded headers. A read error ends the Go loop and is not modelled.
- `formatDatetime` and `format_datetime` (time-zone and calendar arithmetic) are left out. They are the `formatTime` parameter of `Archive.Env`.
- The lookups `user.LookupId`, `user.LookupGroupId`, `pwd.getpwuid` and `grp.getgrgid` read system databases. Each is the `users`/`groups` parameter; the `None` result covers both the Go error and the Python `KeyError`. Python exceptions other than `KeyError` are not modelled.
- `bytes.decode('utf-8')` is the `decode` parameter; its failure on invalid UTF-8 is not modelled. Go's `string(b)` is modelled as one character per byte, because the model does not decode UTF-8.
- Neither template engine is modelled in general. Only these two fixed templates are, as text layouts: the `{{-` trim, the Go `{{ if }}`, and the trailing newline that Jinja2 drops.
- `template.Parse` and `tmpl.Execute` cannot fail on this fixed template and a `strings.Builder`, so their error returns are not modelled.
- Command-line handling is left out: flags, argparse and printing. That includes `main`, where the `-timestamp` flag (documented as "exclude") is passed on as `showTimestamp`. `GoListing.ParseTarToTemplate` takes that boolean directly.
- `Header.FileInfo().Mode()` bits other than the nine permission bits and `ModeDir` are left out. The set-id, sticky and other type bits lie outside every mask `modeToStr` tests.
- The Go `Size` is an `int64` and Python's is unbounded. The model uses unbounded integers because the layout never wraps.
- Go's map iteration order is unspecified. Maps are modelled in one given order.
- Python's hashability of keys and the exact semantics of `__eq__` between keys are not modelled. Key equality is Dafny equality on the value model.
- GoConvert.ConvertIdempotent: stated for successful conversions only. A value that panics has no result to convert again.
- GoConvert.ConvertPair: the key is converted and asserted before the value is converted. Go leaves open whether the `.(string)` assertion in the index runs before or after the value's conversion. If both would panic, the model reports the key.
- GoConvert.KeyConvertsToString: the `[]byte` half describes no real input. Go map keys must be comparable, so a `[]byte` key cannot occur. The same holds for the `[]byte` keys that `Convertible` allows.
- GoListing.BuildEntry: no longer promises that each permission letter follows its own bit. `main.go` does not do that (see Findings). The per-bit statement is proved of the corrected chain, `GoModeFacts.ModeToStrFixedBits`.
- ModeComparison.EntriesCorrespond: both listers are given the same decoded `Header`, the same `formatTime` and the same `users`/`groups` lookups. Go's `os/user` and Python's `pwd`/`grp` can answer differently: a pure-Go build reads only /etc/passwd and /etc/group. Their tar decoders do not always agree. CPython's `tarfile` strips a directory name's trailing "/" and Go's `archive/tar` keeps it. A PAX header can give Python a fractional `mtime`. The comparison lemmas hold for headers both decoders read alike.
- ModeComparison.LinesAgreeIff: rests on the same shared `Header` assumption, and so do `FixedLinesAgreeIff` and `CorrectedLinesAgree`.
- PyMode.ModeToStrTyped: `isDir` is the shared `Header.isDir`. Python's `member.isdir()` reads only the type flag. Go's directory flag also reads the S_IFDIR bits of the mode field, so the two can differ on a header whose type flag says otherwise.

## Findings

| source | as written | input that shows it | evidently intended | confidence | as-written member | corrected member |
|---|---|---|---|---|---|---|
| main.go:67-92 | `strings.Replace(permStr, letter, "-", n)` with n = 2, 5, 8 replaces the first n remaining copies of the letter, not the one at position n. A clear group or other bit also blanks the owner (and group) letter | a directory with mode 0o755 prints `dr-xr-xr-x` | each bit blanks only its own position: `drwxr-xr-x`, as Python's `mode_to_str` prints | high, not executed | GoModeFacts.ModeToStr755 | GoModeFacts.ModeToStrFixedBits |
| main.py:25 | the 'd' is taken from `mode & 0o040000`, the S_IFDIR bits of the raw mode field | a directory member whose mode field is 0o755, as writers that store `mode & 0o7777` produce, prints `-rwxr-xr-x` | 'd' for every directory member (`member.isdir()`), as `ls -l` shows it | medium, not executed | PyMode.ModeToStrPermOnlyDirectory | PyMode.ModeToStrTypedBits |
