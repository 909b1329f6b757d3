/**
 * The test that picks system-call stubs out of a library's export names:
 * "Nt" followed by a capitalised word (NtUserSetWindowLongPtr), as opposed to
 * helpers that merely start with "Nt" (NtdllDefWindowProc_A).
 */
module SyscallName {

  const Prefix: string := "Nt"

  /** Follows the three early returns of the source: too short, wrong prefix, lower-case third character. */
  function IsSyscallFunc(funcName: string): (r: bool)
    ensures r <==> |funcName| >= 3 && funcName[0] == 'N' && funcName[1] == 't' && 'A' <= funcName[2] <= 'Z'
  {
    if |funcName| < |Prefix| + 1 then false
    else if funcName[..|Prefix|] != Prefix then false
    else
      var afterPrefix := funcName[|Prefix|];
      'A' <= afterPrefix <= 'Z'
  }

  /** Whether a name is a stub depends on its first three characters only. */
  lemma StubNameExtends(funcName: string, suffix: string)
    requires IsSyscallFunc(funcName)
    ensures IsSyscallFunc(funcName + suffix)
    ensures forall k :: 3 <= k <= |funcName| ==> IsSyscallFunc(funcName[..k])
  {
    assert (funcName + suffix)[..3] == funcName[..3];
  }

  /** The two names the source's own comment contrasts, and the boundary cases. */
  lemma Examples()
    ensures IsSyscallFunc("NtUserSetWindowLongPtr")
    ensures !IsSyscallFunc("NtdllDefWindowProc_A")
    ensures !IsSyscallFunc("Nt") && IsSyscallFunc("NtA") && !IsSyscallFunc("ZwClose")
  {
  }
}
