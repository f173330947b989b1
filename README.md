# wifiqr core in Dafny

A model of the core of the Go package `wifiqr`. The package turns a WiFi network descriptor (`Config`) into the text that a WiFi QR code carries, `WIFI:T:<auth>;S:<ssid>;P:<password>;H:true;;`, and hands that text with a recovery level to an external QR renderer.

The model has two modules:

- `WifiQr` (`wifiqr.dfy`) covers the data model and the three operations.
  - `Authentication` and `RecoveryLevel` are `int`, as in the source, so that unknown values such as `-1` or `100` can be represented. The renderer's levels are the datatype `QrRecoveryLevel`.
  - `Convert` maps the package's recovery level to the renderer's.
  - `AuthKV` validates the authentication type against the password and yields the `T` pair.
  - `Encode` is a method written like the source: validate first, then build the pair list by appending, then write each `Key:Value;` into a growing string in a loop. Its contract ties its result to the pure specification `Encoding`.
  - `Encoding` is proved equal to the closed form `Payload` (lemma `RenderPairs`).
  - `New` models what `New` passes to the renderer.
  - The package's test tables are stated as lemmas.
- `WifiQrPayload` (`payload.dfy`) splits the text on `;`. It models a reader that splits on every `;` and honours no escape character. For that reader, when no value contains `;`, the fields come back exactly, so the encoding is injective. Because nothing is escaped, a password ending in `;H:true` encodes to the same text as a hidden network with the shorter password.

Errors are the datatype `Error`: `InvalidPassword`, `MissingPassword(auth)`, `InvalidAuthentication` and `MissingSSID`. The source's separate WEP and WPA messages become `MissingPassword(WEP)` and `MissingPassword(WPA)`.

## Model

| member | source | states |
|---|---|---|
| `WifiQr.Convert` | wifiqr.go:65-83 | Low, High and Highest map to the renderer's Low, High and Highest, each in both directions. Medium (the zero value) and every other integer map to the renderer's Medium. The mapping is total. |
| `WifiQr.Level` | wifiqr.go:56-63 | Every renderer level has a named package level (Medium..Highest) that Convert maps to it. |
| `WifiQr.ConvertNamedRoundTrip` | wifiqr.go:58-83 | On the four named levels, Level undoes Convert, so no two named levels map to the same renderer level. |
| `WifiQr.ConvertExamples` | wifiqr_test.go:137-172 | The test table: zero and 100 give Medium; Low, Medium, High and Highest give their counterparts. |
| `WifiQr.AuthKV` | wifiqr.go:111-138 | Succeeds exactly when the documented rule holds: None with no password, or WEP/WPA with a password. The key is always `T`, and the value is `""`, `"WEP"` or `"WPA"`. `InvalidPassword` means None with a password. `MissingPassword(a)` means WEP/WPA without one. `InvalidAuthentication` means any value outside {0,1,2}. Each is an if-and-only-if. |
| `WifiQr.PairsOrder` | wifiqr.go:154-162 | The pair list is T first, then S with the SSID. P with the password is present iff the password is non-empty. H with `true` is present iff the network is hidden. Keys come in strictly increasing T<S<P<H order. |
| `WifiQr.PayloadFrame` | wifiqr.go:164-170 | The closed-form payload starts with `WIFI:T:` and ends with `;;`. |
| `WifiQr.RenderPairs` | wifiqr.go:154-170 | Rendering each pair as `Key:Value;` and wrapping as `WIFI:<pairs>;` gives exactly `WIFI:T:<tag>;S:<ssid>;` + `P:<pw>;` if there is a password + `H:true;` if hidden + `;`, with values copied literally. |
| `WifiQr.Encoding` | wifiqr.go:143-171 | An authentication error is returned unchanged, whatever the SSID is. `MissingSSID` is returned iff authentication is valid and the SSID is empty. Success happens iff authentication is valid and the SSID is non-empty, and then the result is the closed-form payload. |
| `WifiQr.EncodingFrame` | wifiqr.go:170 | Every successful encoding starts with `WIFI:T:` and ends with `;;`. |
| `WifiQr.Encode` | wifiqr.go:143-171 | The imperative encoder (appends, then a loop writing into a string) returns exactly `Encoding(c)`. |
| `WifiQr.New` | wifiqr.go:19-31 | An encoding error is passed on unchanged. On success, the renderer gets the closed-form payload and the converted level: Medium for the zero value and for unknown values, otherwise the named level. |
| `WifiQr.EncodingRejections` | wifiqr_test.go:57-76 | The rejected configs of the test table fail with the expected kind: no SSID, authentication -1, None with a password, WEP and WPA without one. |
| `WifiQr.EncodingExampleNone` | wifiqr_test.go:77-82 | `{SSID: "Foo"}` encodes to `WIFI:T:;S:Foo;;`. |
| `WifiQr.EncodingExampleWEP` | wifiqr_test.go:83-92 | The WEP config encodes to `WIFI:T:WEP;S:Bar;P:abc;;`. |
| `WifiQr.EncodingExampleWPA` | wifiqr_test.go:93-102 | The WPA config encodes to `WIFI:T:WPA;S:Baz;P:def;;`. |
| `WifiQr.EncodingExampleHidden` | wifiqr_test.go:103-113 | The hidden WPA config encodes to `WIFI:T:WPA;S:Qux;P:ghi;H:true;;`. |
| `WifiQrPayload.PayloadFields` | wifiqr.go:164-170 | When tag, SSID and password contain no `;`, splitting the payload on `;` gives `WIFI:T:<tag>`, `S:<ssid>`, then `P:<pw>` iff there is a password, `H:true` iff hidden, and two empty pieces. |
| `WifiQrPayload.PayloadInjective` | wifiqr.go:164-170 | For values free of `;`, equal payloads have equal tag, SSID, password and hidden flag. |
| `WifiQrPayload.EncodingInjective` | wifiqr.go:143-171 | For SSIDs and passwords free of `;`, two configs with the same successful encoding agree on authentication, SSID, password and hidden flag. |
| `WifiQrPayload.UnescapedCollision` | wifiqr.go:164-168 | Values are not escaped. So for a non-hidden config with a password, appending `;H:true` to the password gives the same encoding as marking the network hidden. |
| `WifiQrPayload.UnescapedCollisionExample` | wifiqr.go:164-168 | A concrete instance: WPA `x`/`y;H:true` and hidden WPA `x`/`y` encode identically. |

## Left out

- `Image.Image`, `Image.String` and the QR matrix itself (wifiqr.go:33-41) belong to the external `go-qrcode` library: error correction, module layout and rasterisation. So does the block-character test that checks them.
- New: `qrcode.New` is external. Its own failure (for instance, content too long for a QR symbol) is not modelled. The model returns the arguments that `New` passes to it.
- The exact Go error message strings are replaced by distinct error kinds.
- `cmd/wifiqr/main.go` is not part of this model. It only builds a fixed config, writes PNG output to stdout and reports errors through the log.
- Go strings are byte strings, and the model uses Dafny `string` (a sequence of characters). Concatenation behaves the same, and no operation here inspects single bytes.
- Idempotence of encoding is not stated as a lemma. `Encoding` is a function, so equal inputs give equal outputs by construction, and `Encode` is tied to it.
- Escaping of `\`, `;`, `,`, `:` and `"` is not performed, matching the source. `UnescapedCollision` shows what this costs.
- A reader that treats `\` as an escape character is not modelled. The field-recovery lemmas (`PayloadFields`, `PayloadInjective`, `EncodingInjective`) hold for a plain `;` splitter only. For an escape-aware reader, an SSID ending in `\` already breaks the field boundaries.
