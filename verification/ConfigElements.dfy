/** config-parser-common.c: the elements of a configuration file and their names. */
module ConfigElements {

  datatype ElementType =
    | NoElement | BusConfig | Include | User | Listen | Auth | Policy | Limit | Allow | Deny | Fork | PidFile
    | ServiceDir | ServiceHelper | IncludeDir | ConfigType | SELinux | Associate | StandardSessionServiceDirs
    | StandardSystemServiceDirs | KeepUmask | Syslog | AllowAnonymous

  /** `bus_config_parser_element_name_to_type` */
  function NameToType(name: string): ElementType {
    if name == "none" then NoElement
    else if name == "busconfig" then BusConfig
    else if name == "user" then User
    else if name == "auth" then Auth
    else if name == "type" then ConfigType
    else if name == "fork" then Fork
    else if name == "pidfile" then PidFile
    else if name == "listen" then Listen
    else if name == "allow" then Allow
    else if name == "deny" then Deny
    else if name == "servicehelper" then ServiceHelper
    else if name == "includedir" then IncludeDir
    else if name == "standard_session_servicedirs" then StandardSessionServiceDirs
    else if name == "standard_system_servicedirs" then StandardSystemServiceDirs
    else if name == "servicedir" then ServiceDir
    else if name == "include" then Include
    else if name == "policy" then Policy
    else if name == "limit" then Limit
    else if name == "selinux" then SELinux
    else if name == "associate" then Associate
    else if name == "syslog" then Syslog
    else if name == "keep_umask" then KeepUmask
    else if name == "allow_anonymous" then AllowAnonymous
    else NoElement
  }

  /** `bus_config_parser_element_type_to_name`; "" stands for NULL. */
  function TypeToName(t: ElementType): string {
    match t
    case NoElement => ""
    case BusConfig => "busconfig"
    case Include => "include"
    case User => "user"
    case Listen => "listen"
    case Auth => "auth"
    case Policy => "policy"
    case Limit => "limit"
    case Allow => "allow"
    case Deny => "deny"
    case Fork => "fork"
    case PidFile => "pidfile"
    case StandardSessionServiceDirs => "standard_session_servicedirs"
    case StandardSystemServiceDirs => "standard_system_servicedirs"
    case ServiceDir => "servicedir"
    case ServiceHelper => "servicehelper"
    case IncludeDir => "includedir"
    case ConfigType => "type"
    case SELinux => "selinux"
    case Associate => "associate"
    case Syslog => "syslog"
    case KeepUmask => "keep_umask"
    case AllowAnonymous => "allow_anonymous"
  }

  lemma TypeOfFirstNames(t: ElementType)
    requires t in {BusConfig, User, Auth, ConfigType, Fork, PidFile, Listen, Allow, Deny, ServiceHelper, IncludeDir}
    ensures NameToType(TypeToName(t)) == t
  {
  }

  lemma TypeOfDirNames(t: ElementType)
    requires t in {StandardSessionServiceDirs, StandardSystemServiceDirs, ServiceDir}
    ensures NameToType(TypeToName(t)) == t
  {
  }

  lemma TypeOfMiddleNames(t: ElementType)
    requires t in {Include, Policy, Limit}
    ensures NameToType(TypeToName(t)) == t
  {
  }

  lemma TypeOfLastNames(t: ElementType)
    requires t in {KeepUmask, AllowAnonymous}
    ensures NameToType(TypeToName(t)) == t
  {
  }

  lemma TypeOfShortNames(t: ElementType)
    requires t in {SELinux, Associate, Syslog}
    ensures NameToType(TypeToName(t)) == t
  {
  }

  lemma FirstNames(name: string)
    requires name in {"busconfig", "user", "auth", "type", "fork", "pidfile", "listen", "allow", "deny",
                      "servicehelper", "includedir"}
    ensures NameToType(name) != NoElement && TypeToName(NameToType(name)) == name
  {
  }

  lemma LastNames(name: string)
    requires name !in {"none", "busconfig", "user", "auth", "type", "fork", "pidfile", "listen", "allow", "deny",
                       "servicehelper", "includedir"}
    ensures NameToType(name) != NoElement ==> TypeToName(NameToType(name)) == name
  {
  }

  /** The two maps are inverse on every element, so an end tag names the element that a start tag pushed. */
  lemma NamesAndTypes(t: ElementType, name: string)
    requires t != NoElement
    ensures NameToType(name) == t <==> name == TypeToName(t)
  {
    if t in {BusConfig, User, Auth, ConfigType, Fork, PidFile, Listen, Allow, Deny, ServiceHelper, IncludeDir} {
      TypeOfFirstNames(t);
    } else if t in {KeepUmask, AllowAnonymous} {
      TypeOfLastNames(t);
    } else if t in {SELinux, Associate, Syslog} {
      TypeOfShortNames(t);
    } else if t in {StandardSessionServiceDirs, StandardSystemServiceDirs, ServiceDir} {
      TypeOfDirNames(t);
    } else {
      TypeOfMiddleNames(t);
    }
    if name in {"busconfig", "user", "auth", "type", "fork", "pidfile", "listen", "allow", "deny", "servicehelper",
                "includedir"} {
      FirstNames(name);
    } else if name != "none" {
      LastNames(name);
    }
  }
}
