/** Windows HRESULT status codes, as the camera controller uses them. */
module HResults {

  /** An HRESULT is a signed 32-bit integer; negative values are failures. */
  newtype HResult = x: int | -0x8000_0000 <= x < 0x8000_0000

  /** Reads a 32-bit pattern, as winerror.h writes the codes, as the signed HRESULT it stands for. */
  function FromBits(u: int): (hr: HResult)
    requires 0 <= u < 0x1_0000_0000
    ensures (hr as int) % 0x1_0000_0000 == u
    ensures (hr < 0) == (u >= 0x8000_0000)
  {
    if u < 0x8000_0000 then u as HResult else (u - 0x1_0000_0000) as HResult
  }

  /** The SUCCEEDED macro. */
  predicate Succeeded(hr: HResult) { hr >= 0 }

  /** The FAILED macro. */
  predicate Failed(hr: HResult) { hr < 0 }

  const S_OK: HResult := 0
  const E_FAIL: HResult := FromBits(0x8000_4005)
  /** HRESULT_FROM_WIN32(ERROR_INVALID_STATE). */
  const E_NOT_VALID_STATE: HResult := FromBits(0x8007_139F)

}
