/** What the TLS classes remember about a configuration for the metrics (TlsMetrics.h, TlsOptions.h). */
module TlsInfo {

  datatype CertificateSource = NoCertificate | CertificateFiles | Pkcs11 | WindowsCertStore | Pkcs12File

  datatype TlsVersion = SystemVersion | SSLv3 | TLSv1 | TLSv1_1 | TLSv1_2 | TLSv1_3

  /** The value of `aws_tls_cipher_pref`; zero is the system default. */
  type CipherPref = int

  datatype Info = Info(certificate: CertificateSource, version: TlsVersion, cipher: CipherPref)

  const DEFAULT_INFO := Info(NoCertificate, SystemVersion, 0)
}
