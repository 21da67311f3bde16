/**
 * The admin route table: one constant path per page and the edit path
 * built from a hostel id.
 */
module Routes {
  import opened Common
  import Text

  const Root: string := "/admin"
  const Overview: string := "/admin/overview"
  const Tenants: string := "/admin/people/tenants"
  const Employees: string := "/admin/people/employees"
  const Accounts: string := "/admin/accounts"
  const Hostel: string := "/admin/hostel"
  const HostelCreate: string := "/admin/hostel/create"
  const Alerts: string := "/admin/alerts"
  const Vendor: string := "/admin/vendor"
  const Comm: string := "/admin/communication"
  const Fpa: string := "/admin/fpa"
  const Settings: string := "/admin/settings"

  /** Every constant path, in declaration order. */
  const ConstantRoutes: seq<string> :=
    [Root, Overview, Tenants, Employees, Accounts, Hostel, HostelCreate, Alerts, Vendor, Comm, Fpa, Settings]

  const EditSuffix: string := "/edit"

  /** `/admin/hostel/${id}/edit`, with a number written in decimal. */
  function HostelEdit(id: Id): (path: string)
    ensures Text.StartsWith(path, Hostel + "/")
  {
    Hostel + "/" + IdKey(id) + EditSuffix
  }

  predicate EndsWith(s: string, suffix: string)
  {
    |suffix| <= |s| && s[|s| - |suffix|..] == suffix
  }

  /** Every route, constant or built, lies under `/admin`. */
  lemma EveryRouteUnderAdmin(id: Id)
    ensures forall i :: 0 <= i < |ConstantRoutes| ==> Text.StartsWith(ConstantRoutes[i], Root)
    ensures Text.StartsWith(HostelEdit(id), Root)
  {
    assert HostelEdit(id)[..|Root|] == (Hostel + "/")[..|Root|];
  }

  /** The create path and every edit path are one `/`-separated step below the hostel list. */
  lemma HostelPathsExtendHostel(id: Id)
    ensures HostelCreate == Hostel + "/" + "create"
    ensures HostelEdit(id) == Hostel + "/" + IdKey(id) + "/edit"
  {
  }

  /** Two ids give the same edit path exactly when they have the same text. */
  lemma HostelEditInjective(a: Id, b: Id)
    ensures HostelEdit(a) == HostelEdit(b) <==> IdKey(a) == IdKey(b)
  {
    if HostelEdit(a) == HostelEdit(b) {
      var n := |Hostel + "/"|;
      var pa, pb := HostelEdit(a), HostelEdit(b);
      assert pa[n..|pa| - |EditSuffix|] == IdKey(a);
      assert pb[n..|pb| - |EditSuffix|] == IdKey(b);
    }
  }

  /** The number 7 and the text "7" open the same edit page; distinct numbers open distinct ones. */
  lemma NumericEditPaths(m: int, n: int)
    ensures HostelEdit(NumId(n)) == HostelEdit(StrId(Text.IntToString(n)))
    ensures HostelEdit(NumId(m)) == HostelEdit(NumId(n)) <==> m == n
  {
    HostelEditInjective(NumId(m), NumId(n));
    if IdKey(NumId(m)) == IdKey(NumId(n)) {
      NumericIdKeyInjective(m, n);
    }
  }

  /** No edit path is one of the constant paths: they all end in `/edit`, and none of the constants do. */
  lemma EditPathsAreNotConstants(id: Id)
    ensures EndsWith(HostelEdit(id), EditSuffix)
    ensures forall i :: 0 <= i < |ConstantRoutes| ==> !EndsWith(ConstantRoutes[i], EditSuffix)
    ensures HostelEdit(id) !in ConstantRoutes
  {
    var p := HostelEdit(id);
    assert p[|p| - |EditSuffix|..] == EditSuffix;
    forall i | 0 <= i < |ConstantRoutes|
      ensures !EndsWith(ConstantRoutes[i], EditSuffix)
    {
      var r := ConstantRoutes[i];
      assert r[|r| - 1] != 't';
    }
  }
}
